// What the ring keeps step by step, exactly when it does, and what that means for whole runs.
module RteRingProofs {
  import opened Options
  import opened RteRing

  function PTicket(pc: ProducerPc): Option<nat> {
    match pc
    case PWrite(t, _) => Some(t)
    case PPublish(t, _) => Some(t)
    case _ => None
  }

  function CTicket(pc: ConsumerPc): Option<nat> {
    match pc
    case CMove(t) => Some(t)
    case CDestroy(t, _) => Some(t)
    case CPublish(t, _, _) => Some(t)
    case _ => None
  }

  function Cap(s: State): nat { Pow2(s.bits) }

  function At(s: State, t: nat): Slot
    requires |s.slots| == Cap(s)
  {
    SlotAt(s.bits, s.slots, t)
  }

  // The four counters in order, at most a capacity apart, and nothing undefined has happened.
  ghost predicate Counters(s: State) {
    && s.consTail <= s.consHead <= s.prodTail <= s.prodHead <= s.consTail + Cap(s)
    && |s.slots| == Cap(s) && s.bits <= 31
    && |s.log| == s.prodHead && !s.fault
    && forall t :: t in s.got ==> t < s.consHead && s.got[t] == s.log[t]
  }

  // Each thread's loads are out of date at worst; each claimed ticket's slot is as its owner
  // left it.
  ghost predicate ProducerOk(s: State, pc: ProducerPc)
    requires Counters(s)
  {
    match pc
    case PLoaded(_, h) => h <= s.prodHead && h <= s.consTail + Cap(s)
    case PClaim(_, h, l) => h <= s.prodHead && l <= s.consTail && h <= l + Cap(s) && Available(Cap(s), l, h) != 0
    case PWrite(t, v) => s.prodTail <= t < s.prodHead && s.log[t] == v && At(s, t) == Raw
    case PPublish(t, _) => s.prodTail <= t < s.prodHead && At(s, t) == Full(s.log[t])
    case _ => true
  }

  ghost predicate ConsumerOk(s: State, pc: ConsumerPc)
    requires Counters(s)
  {
    match pc
    case CLoaded(h) => h <= s.consHead
    case CClaim(h, l) => h <= s.consHead && h <= l <= s.prodTail && Length(l, h) != 0
    case CMove(t) => s.consTail <= t < s.consHead && At(s, t) == Full(s.log[t])
    case CDestroy(t, v) => s.consTail <= t < s.consHead && At(s, t) == Full(s.log[t]) && v == s.log[t]
    case CPublish(t, _, v) => s.consTail <= t < s.consHead && At(s, t) == Raw && v == s.log[t]
    case _ => true
  }

  ghost predicate Threads(s: State)
    requires Counters(s)
  {
    && (forall i :: 0 <= i < |s.producers| ==> ProducerOk(s, s.producers[i]))
    && (forall j :: 0 <= j < |s.consumers| ==> ConsumerOk(s, s.consumers[j]))
  }

  // Every ticket between tail and head has exactly one owner.
  ghost predicate ProducersOwn(s: State) {
    && (forall i, k :: 0 <= i < k < |s.producers| && PTicket(s.producers[i]).Some? ==>
          PTicket(s.producers[i]) != PTicket(s.producers[k]))
    && (forall t: nat :: s.prodTail <= t < s.prodHead ==> ProducerOf(s, t))
  }

  ghost predicate ConsumersOwn(s: State) {
    && (forall j, k :: 0 <= j < k < |s.consumers| && CTicket(s.consumers[j]).Some? ==>
          CTicket(s.consumers[j]) != CTicket(s.consumers[k]))
    && (forall t: nat :: s.consTail <= t < s.consHead ==> ConsumerOf(s, t))
  }

  ghost predicate ProducerOf(s: State, t: nat) {
    exists i :: 0 <= i < |s.producers| && PTicket(s.producers[i]) == Some(t)
  }

  ghost predicate ConsumerOf(s: State, t: nat) {
    exists j :: 0 <= j < |s.consumers| && CTicket(s.consumers[j]) == Some(t)
  }

  // Slots nobody owns: published ones hold their ticket's value, the others are raw.
  ghost predicate Free(s: State)
    requires Counters(s)
  {
    && (forall t: nat :: s.consHead <= t < s.prodTail ==> At(s, t) == Full(s.log[t]))
    && (forall t: nat :: s.prodHead <= t < s.consTail + Cap(s) ==> At(s, t) == Raw)
  }

  ghost predicate Inv(s: State) {
    Counters(s) && Threads(s) && ProducersOwn(s) && ConsumersOwn(s) && Free(s)
  }

  // A claim that goes through finds room (for a pop: an element), and a publication that goes
  // through comes in its turn.
  ghost predicate InTurn(s: State, a: Action)
    requires Enabled(s, a)
  {
    match a
    case Produce(i) =>
      (match s.producers[i]
       case PClaim(_, h, _) =>
         ClaimSucceeds(s.sync, s.prodHead, h) ==>
           Claimed(s.sync, s.prodHead, h) == s.prodHead && s.prodHead < s.consTail + Cap(s)
       case PPublish(t, e) => PublishSucceeds(s.sync, s.prodTail, t, e) ==> s.prodTail == t
       case _ => true)
    case Consume(j) =>
      (match s.consumers[j]
       case CClaim(h, _) =>
         ClaimSucceeds(s.sync, s.consHead, h) ==>
           Claimed(s.sync, s.consHead, h) == s.consHead && s.consHead < s.prodTail
       case CPublish(t, e, _) => PublishSucceeds(s.sync, s.consTail, t, e) ==> s.consTail == t
       case _ => true)
    case _ => true
  }

  lemma TicketWritten(s: State, s2: State, lo: nat, t: nat, x: Slot)
    requires |s.slots| == Cap(s) && s2.bits == s.bits && lo <= t < lo + Cap(s)
    requires Index(s.bits, t) < |s.slots| ==> s2.slots == s.slots[Index(s.bits, t) := x]
    ensures |s2.slots| == Cap(s2) && At(s2, t) == x
    ensures Index(s.bits, t) < |s.slots| && s.slots[Index(s.bits, t)] == At(s, t)
    ensures forall u: nat :: lo <= u < lo + Cap(s) && u != t ==> At(s2, u) == At(s, u)
  {
    OneSlotWritten(s.bits, s.slots, s2.slots, lo, t, x);
  }

  lemma SlotsSame(s: State, s2: State)
    requires |s.slots| == Cap(s) && s2.bits == s.bits && s2.slots == s.slots
    ensures forall t: nat :: At(s2, t) == At(s, t)
  {
  }

  lemma ProducerKeepsOwners(s: State, i: nat)
    requires Enabled(s, Produce(i)) && Counters(s) && Threads(s) && ProducersOwn(s) && InTurn(s, Produce(i))
    ensures ProducersOwn(ProducerNext(s, i))
  {
    var s2 := ProducerNext(s, i);
    forall t: nat | s2.prodTail <= t < s2.prodHead ensures ProducerOf(s2, t) {
      if t < s.prodHead {
        assert ProducerOf(s, t);
        var k :| 0 <= k < |s.producers| && PTicket(s.producers[k]) == Some(t);
        assert PTicket(s2.producers[k]) == Some(t);
      } else {
        assert PTicket(s2.producers[i]) == Some(t);
      }
    }
  }

  lemma WriteKeepsSlots(s: State, i: nat)
    requires Enabled(s, Produce(i)) && Counters(s) && Threads(s) && ProducersOwn(s) && Free(s)
    requires s.producers[i].PWrite?
    ensures var s2 := ProducerNext(s, i); Counters(s2) && Threads(s2) && Free(s2)
  {
    var s2 := ProducerNext(s, i);
    assert ProducerOk(s, s.producers[i]);
    var t, v := s.producers[i].ticket, s.producers[i].v;
    TicketWritten(s, s2, s.consTail, t, Full(v));
    forall k | 0 <= k < |s.producers| ensures ProducerOk(s2, s2.producers[k]) {
      assert ProducerOk(s, s.producers[k]);
    }
    forall j | 0 <= j < |s.consumers| ensures ConsumerOk(s2, s2.consumers[j]) {
      assert ConsumerOk(s, s.consumers[j]);
    }
  }

  // The other steps move counters and leave the slots alone.
  lemma ClaimKeepsSlots(s: State, i: nat)
    requires Enabled(s, Produce(i)) && Counters(s) && Threads(s) && Free(s)
    requires s.producers[i].PClaim? && InTurn(s, Produce(i))
    ensures var s2 := ProducerNext(s, i); Counters(s2) && Threads(s2) && Free(s2)
  {
    var s2 := ProducerNext(s, i);
    SlotsSame(s, s2);
    assert forall t :: 0 <= t < s.prodHead ==> s2.log[t] == s.log[t];
    ThreadsStay(s, s2, i);
    if ClaimSucceeds(s.sync, s.prodHead, s.producers[i].head) {
      assert At(s, s.prodHead) == Raw;
    }
  }

  lemma PublishKeepsSlots(s: State, i: nat)
    requires Enabled(s, Produce(i)) && Counters(s) && Threads(s) && ProducersOwn(s) && Free(s)
    requires s.producers[i].PPublish? && InTurn(s, Produce(i))
    ensures var s2 := ProducerNext(s, i); Counters(s2) && Threads(s2) && Free(s2)
  {
    var s2 := ProducerNext(s, i);
    SlotsSame(s, s2);
    assert ProducerOk(s, s.producers[i]);
    if s2.prodTail == s.prodTail {
      ThreadsStay(s, s2, i);
    } else {
      forall k | 0 <= k < |s.producers| ensures ProducerOk(s2, s2.producers[k]) {
        assert ProducerOk(s, s.producers[k]);
      }
      forall j | 0 <= j < |s.consumers| ensures ConsumerOk(s2, s2.consumers[j]) {
        assert ConsumerOk(s, s.consumers[j]);
      }
    }
  }

  // Threads that do not move stay as they were while prodTail, the consumers' counters and the
  // slots do.
  lemma ThreadsStay(s: State, s2: State, i: nat)
    requires Counters(s) && Threads(s) && Counters(s2)
    requires s2.bits == s.bits && s2.slots == s.slots && s.prodHead <= s2.prodHead
    requires forall t :: 0 <= t < s.prodHead ==> s2.log[t] == s.log[t]
    requires s2.prodTail == s.prodTail && s2.consHead == s.consHead && s2.consTail == s.consTail
    requires i < |s.producers| && |s2.producers| == |s.producers| && s2.consumers == s.consumers
    requires forall k :: 0 <= k < |s.producers| && k != i ==> s2.producers[k] == s.producers[k]
    ensures forall k :: 0 <= k < |s.producers| && k != i ==> ProducerOk(s2, s2.producers[k])
    ensures forall j :: 0 <= j < |s.consumers| ==> ConsumerOk(s2, s2.consumers[j])
  {
    forall k | 0 <= k < |s.producers| && k != i ensures ProducerOk(s2, s2.producers[k]) {
      assert ProducerOk(s, s.producers[k]);
    }
    forall j | 0 <= j < |s.consumers| ensures ConsumerOk(s2, s2.consumers[j]) {
      assert ConsumerOk(s, s.consumers[j]);
    }
  }

  lemma LoadKeepsSlots(s: State, i: nat)
    requires Enabled(s, Produce(i)) && Counters(s) && Threads(s) && Free(s)
    requires s.producers[i].PStart? || s.producers[i].PLoaded?
    ensures var s2 := ProducerNext(s, i); Counters(s2) && Threads(s2) && Free(s2)
  {
    var s2 := ProducerNext(s, i);
    SlotsSame(s, s2);
    assert ProducerOk(s, s.producers[i]);
    ThreadsStay(s, s2, i);
  }

  lemma ConsumersStay(s: State, s2: State)
    requires ConsumersOwn(s)
    requires s2.consumers == s.consumers && s2.consTail == s.consTail && s2.consHead == s.consHead
    ensures ConsumersOwn(s2)
  {
    forall t: nat | s2.consTail <= t < s2.consHead ensures ConsumerOf(s2, t) {
      assert ConsumerOf(s, t);
    }
  }

  lemma ProducerKeeps(s: State, i: nat)
    requires Enabled(s, Produce(i)) && Inv(s) && InTurn(s, Produce(i))
    ensures Inv(ProducerNext(s, i))
  {
    ProducerKeepsOwners(s, i);
    match s.producers[i] {
      case PWrite(_, _) => WriteKeepsSlots(s, i);
      case PClaim(_, _, _) => ClaimKeepsSlots(s, i);
      case PPublish(_, _) => PublishKeepsSlots(s, i);
      case _ => LoadKeepsSlots(s, i);
    }
    ConsumersStay(s, ProducerNext(s, i));
  }

  lemma ConsumerKeepsOwners(s: State, j: nat)
    requires Enabled(s, Consume(j)) && Counters(s) && Threads(s) && ConsumersOwn(s) && InTurn(s, Consume(j))
    ensures ConsumersOwn(ConsumerNext(s, j))
  {
    var s2 := ConsumerNext(s, j);
    assert ConsumerOk(s, s.consumers[j]);
    forall t: nat | s2.consTail <= t < s2.consHead ensures ConsumerOf(s2, t) {
      if t < s.consHead {
        assert ConsumerOf(s, t);
        var k :| 0 <= k < |s.consumers| && CTicket(s.consumers[k]) == Some(t);
        assert CTicket(s2.consumers[k]) == Some(t);
      } else {
        assert CTicket(s2.consumers[j]) == Some(t);
      }
    }
  }

  lemma ProducersStay(s: State, s2: State)
    requires ProducersOwn(s)
    requires s2.producers == s.producers && s2.prodTail == s.prodTail && s2.prodHead == s.prodHead
    ensures ProducersOwn(s2)
  {
    forall t: nat | s2.prodTail <= t < s2.prodHead ensures ProducerOf(s2, t) {
      assert ProducerOf(s, t);
    }
  }

  // Threads that do not move stay as they were while consTail, the producers' counters and the
  // slots do.
  lemma OthersStay(s: State, s2: State, j: nat)
    requires Counters(s) && Threads(s) && Counters(s2)
    requires s2.bits == s.bits && s2.slots == s.slots && s2.log == s.log
    requires s2.prodTail == s.prodTail && s2.prodHead == s.prodHead
    requires s.consHead <= s2.consHead && s2.consTail == s.consTail
    requires j < |s.consumers| && |s2.consumers| == |s.consumers| && s2.producers == s.producers
    requires forall k :: 0 <= k < |s.consumers| && k != j ==> s2.consumers[k] == s.consumers[k]
    ensures forall k :: 0 <= k < |s.consumers| && k != j ==> ConsumerOk(s2, s2.consumers[k])
    ensures forall i :: 0 <= i < |s.producers| ==> ProducerOk(s2, s2.producers[i])
  {
    forall k | 0 <= k < |s.consumers| && k != j ensures ConsumerOk(s2, s2.consumers[k]) {
      assert ConsumerOk(s, s.consumers[k]);
    }
    forall i | 0 <= i < |s.producers| ensures ProducerOk(s2, s2.producers[i]) {
      assert ProducerOk(s, s.producers[i]);
    }
  }

  lemma TakeKeepsSlots(s: State, j: nat)
    requires Enabled(s, Consume(j)) && Counters(s) && Threads(s) && Free(s) && InTurn(s, Consume(j))
    requires s.consumers[j].CStart? || s.consumers[j].CLoaded? || s.consumers[j].CClaim?
    ensures var s2 := ConsumerNext(s, j); Counters(s2) && Threads(s2) && Free(s2)
  {
    var s2 := ConsumerNext(s, j);
    SlotsSame(s, s2);
    assert ConsumerOk(s, s.consumers[j]);
    OthersStay(s, s2, j);
  }

  lemma MoveKeepsSlots(s: State, j: nat)
    requires Enabled(s, Consume(j)) && Counters(s) && Threads(s) && Free(s) && s.consumers[j].CMove?
    ensures var s2 := ConsumerNext(s, j); Counters(s2) && Threads(s2) && Free(s2)
  {
    var s2 := ConsumerNext(s, j);
    assert ConsumerOk(s, s.consumers[j]);
    IndexInRange(s.bits, s.consumers[j].ticket);
    assert s.slots[Index(s.bits, s.consumers[j].ticket)] == At(s, s.consumers[j].ticket);
    SlotsSame(s, s2);
    OthersStay(s, s2, j);
  }

  lemma DestroyKeepsSlots(s: State, j: nat)
    requires Enabled(s, Consume(j)) && Counters(s) && Threads(s) && ConsumersOwn(s) && Free(s)
    requires s.consumers[j].CDestroy?
    ensures var s2 := ConsumerNext(s, j); Counters(s2) && Threads(s2) && Free(s2)
  {
    var s2 := ConsumerNext(s, j);
    assert ConsumerOk(s, s.consumers[j]);
    TicketWritten(s, s2, s.consTail, s.consumers[j].ticket, Raw);
    forall k | 0 <= k < |s.consumers| ensures ConsumerOk(s2, s2.consumers[k]) {
      assert ConsumerOk(s, s.consumers[k]);
    }
    forall i | 0 <= i < |s.producers| ensures ProducerOk(s2, s2.producers[i]) {
      assert ProducerOk(s, s.producers[i]);
    }
  }

  lemma ReleaseKeepsSlots(s: State, j: nat)
    requires Enabled(s, Consume(j)) && Counters(s) && Threads(s) && ConsumersOwn(s) && Free(s)
    requires s.consumers[j].CPublish? && InTurn(s, Consume(j))
    ensures var s2 := ConsumerNext(s, j); Counters(s2) && Threads(s2) && Free(s2)
  {
    var s2 := ConsumerNext(s, j);
    SlotsSame(s, s2);
    assert ConsumerOk(s, s.consumers[j]);
    IndexRepeats(s.bits, s.consumers[j].ticket);
    if s2.consTail == s.consTail {
      OthersStay(s, s2, j);
    } else {
      forall k | 0 <= k < |s.consumers| ensures ConsumerOk(s2, s2.consumers[k]) {
        assert ConsumerOk(s, s.consumers[k]);
      }
      forall i | 0 <= i < |s.producers| ensures ProducerOk(s2, s2.producers[i]) {
        assert ProducerOk(s, s.producers[i]);
      }
    }
  }

  lemma ConsumerKeeps(s: State, j: nat)
    requires Enabled(s, Consume(j)) && Inv(s) && InTurn(s, Consume(j))
    ensures Inv(ConsumerNext(s, j))
  {
    ConsumerKeepsOwners(s, j);
    match s.consumers[j] {
      case CMove(_) => MoveKeepsSlots(s, j);
      case CDestroy(_, _) => DestroyKeepsSlots(s, j);
      case CPublish(_, _, _) => ReleaseKeepsSlots(s, j);
      case _ => TakeKeepsSlots(s, j);
    }
    ProducersStay(s, ConsumerNext(s, j));
  }

  // A step keeps the invariant exactly when it comes in its turn: the only ways to break it are
  // a claim that goes through without room and a publication that goes through out of order.
  lemma KeepsExactlyInTurn(s: State, a: Action)
    requires Enabled(s, a) && Inv(s)
    ensures Inv(Next(s, a)) <==> InTurn(s, a)
  {
    match a
    case Produce(i) =>
      if InTurn(s, a) {
        ProducerKeeps(s, i);
      } else {
        ProducerOutOfTurn(s, i);
      }
    case Consume(j) =>
      if InTurn(s, a) {
        ConsumerKeeps(s, j);
      } else {
        ConsumerOutOfTurn(s, j);
      }
    case _ => CallKeeps(s, a);
  }

  lemma CallKeeps(s: State, a: Action)
    requires Enabled(s, a) && Inv(s) && (a.PushCall? || a.PopCall?)
    ensures Inv(Next(s, a))
  {
    var s2 := Next(s, a);
    SlotsSame(s, s2);
    forall t: nat | s2.prodTail <= t < s2.prodHead ensures ProducerOf(s2, t) {
      assert ProducerOf(s, t);
      var k :| 0 <= k < |s.producers| && PTicket(s.producers[k]) == Some(t);
      assert PTicket(s2.producers[k]) == Some(t);
    }
    forall t: nat | s2.consTail <= t < s2.consHead ensures ConsumerOf(s2, t) {
      assert ConsumerOf(s, t);
      var k :| 0 <= k < |s.consumers| && CTicket(s.consumers[k]) == Some(t);
      assert CTicket(s2.consumers[k]) == Some(t);
    }
    forall k | 0 <= k < |s.producers| ensures ProducerOk(s2, s2.producers[k]) {
      assert ProducerOk(s, s.producers[k]);
    }
    forall k | 0 <= k < |s.consumers| ensures ConsumerOk(s2, s2.consumers[k]) {
      assert ConsumerOk(s, s.consumers[k]);
    }
  }

  lemma ProducerOutOfTurn(s: State, i: nat)
    requires Enabled(s, Produce(i)) && Inv(s) && !InTurn(s, Produce(i))
    ensures !Inv(ProducerNext(s, i))
  {
    var s2 := ProducerNext(s, i);
    assert ProducerOk(s, s.producers[i]);
    if s.producers[i].PPublish? {
      // The tail jumps over the ticket it stood at, whose owner is another producer.
      assert ProducerOf(s, s.prodTail);
      var k :| 0 <= k < |s.producers| && PTicket(s.producers[k]) == Some(s.prodTail);
      assert s2.producers[k] == s.producers[k];
      assert Counters(s2) ==> !ProducerOk(s2, s2.producers[k]);
    }
  }

  lemma ConsumerOutOfTurn(s: State, j: nat)
    requires Enabled(s, Consume(j)) && Inv(s) && !InTurn(s, Consume(j))
    ensures !Inv(ConsumerNext(s, j))
  {
    var s2 := ConsumerNext(s, j);
    assert ConsumerOk(s, s.consumers[j]);
    if s.consumers[j].CPublish? {
      assert ConsumerOf(s, s.consTail);
      var k :| 0 <= k < |s.consumers| && CTicket(s.consumers[k]) == Some(s.consTail);
      assert s2.consumers[k] == s.consumers[k];
      assert Counters(s2) ==> !ConsumerOk(s2, s2.consumers[k]);
    } else {
      var t := Claimed(s.sync, s.consHead, s.consumers[j].head);
      if t < s.consTail {
        assert Counters(s2) ==> !ConsumerOk(s2, s2.consumers[j]);
      } else if t < s.consHead {
        // A stored head below the current one hands out a ticket that is already owned.
        assert ConsumerOf(s, t);
        var k :| 0 <= k < |s.consumers| && CTicket(s.consumers[k]) == Some(t);
        assert s2.consumers[k] == s.consumers[k] && CTicket(s2.consumers[j]) == Some(t) && j != k;
      }
    }
  }

  // ----- whole runs -----

  lemma AllIdle(s: State)
    requires Init(s)
    ensures forall i :: 0 <= i < |s.producers| ==> s.producers[i] == PIdle
    ensures forall j :: 0 <= j < |s.consumers| ==> s.consumers[j] == CIdle
  {
    forall i | 0 <= i < |s.producers| ensures s.producers[i] == PIdle {
      assert s.producers[i] in s.producers;
    }
    forall j | 0 <= j < |s.consumers| ensures s.consumers[j] == CIdle {
      assert s.consumers[j] in s.consumers;
    }
  }

  lemma InitInv(s: State)
    requires Init(s) && s.bits <= 31
    ensures Inv(s)
  {
    Pow2Positive(s.bits);
    AllIdle(s);
    forall t: nat ensures At(s, t) == Raw {
      IndexInRange(s.bits, t);
    }
  }

  ghost predicate InTurnAt(run: seq<State>, acts: seq<Action>, k: nat)
    requires k < |acts| && |run| == |acts| + 1
  {
    StepAt(run, acts, k) && InTurn(run[k], acts[k])
  }

  // A run is sound from end to end exactly when each of its steps comes in its turn.
  lemma {:induction false} RunsAreSoundExactlyInTurn(run: seq<State>, acts: seq<Action>)
    requires Run(run, acts) && run[0].bits <= 31
    ensures (forall k :: 0 <= k < |run| ==> Inv(run[k])) <==> (forall k :: 0 <= k < |acts| ==> InTurnAt(run, acts, k))
  {
    if forall k :: 0 <= k < |run| ==> Inv(run[k]) {
      forall k | 0 <= k < |acts| ensures InTurnAt(run, acts, k) {
        SoundStepInTurn(run, acts, k);
      }
    } else if forall k :: 0 <= k < |acts| ==> InTurnAt(run, acts, k) {
      forall k | 0 <= k < |run| ensures Inv(run[k]) {
        SoundUpTo(run, acts, k);
      }
    }
  }

  lemma SoundStepInTurn(run: seq<State>, acts: seq<Action>, k: nat)
    requires Run(run, acts) && k < |acts| && Inv(run[k]) && Inv(run[k + 1])
    ensures InTurnAt(run, acts, k)
  {
    assert StepAt(run, acts, k);
    KeepsExactlyInTurn(run[k], acts[k]);
  }

  lemma {:induction false} SoundUpTo(run: seq<State>, acts: seq<Action>, k: nat)
    requires Run(run, acts) && run[0].bits <= 31 && k < |run|
    requires forall j :: 0 <= j < k ==> InTurnAt(run, acts, j)
    ensures Inv(run[k])
  {
    if k == 0 {
      InitInv(run[0]);
    } else {
      SoundUpTo(run, acts, k - 1);
      assert InTurnAt(run, acts, k - 1);
      KeepsExactlyInTurn(run[k - 1], acts[k - 1]);
    }
  }

  // No thread sits between its load and its compare-exchange while 2^32 claims go by.
  ghost predicate NotLapped(s: State) {
    && (forall i :: 0 <= i < |s.producers| ==>
          match s.producers[i] case PClaim(_, h, _) => s.prodHead < h + WRAP case _ => true)
    && (forall j :: 0 <= j < |s.consumers| ==>
          match s.consumers[j] case CClaim(h, _) => s.consHead < h + WRAP case _ => true)
  }

  lemma CapBelowWrap(s: State)
    requires s.bits <= 31
    ensures 0 < Cap(s) < WRAP
  {
    Pow2Positive(s.bits);
    Pow2Monotone(s.bits, 31);
    WrapIsPow2();
  }

  // A compare-exchange on the head that nothing has lapped finds the room its loads promised.
  lemma FreshProducerClaim(s: State, i: nat)
    requires Inv(s) && i < |s.producers| && s.producers[i].PClaim?
    requires s.producers[i].head == s.prodHead
    ensures s.prodHead < s.consTail + Cap(s)
  {
    assert ProducerOk(s, s.producers[i]);
    CapBelowWrap(s);
    WrappedDistance(Cap(s), s.producers[i].tail, s.producers[i].head);
  }

  lemma FreshConsumerClaim(s: State, j: nat)
    requires Inv(s) && j < |s.consumers| && s.consumers[j].CClaim?
    requires s.consumers[j].head == s.consHead
    ensures s.consHead < s.prodTail
  {
    assert ConsumerOk(s, s.consumers[j]);
    CapBelowWrap(s);
    WrappedDistance(0, s.consumers[j].tail, s.consumers[j].head);
  }

  lemma WaitingStepsAreInTurn(s: State, a: Action)
    requires Enabled(s, a) && Inv(s) && s.sync == MTInOrder && NotLapped(s)
    ensures InTurn(s, a)
  {
    CapBelowWrap(s);
    match a
    case Produce(i) =>
      assert ProducerOk(s, s.producers[i]);
      match s.producers[i] {
        case PClaim(_, h, _) =>
          if SameWord(s.prodHead, h) {
            SameWordNear(h, s.prodHead);
            FreshProducerClaim(s, i);
          }
        case PPublish(t, _) =>
          if SameWord(s.prodTail, t) {
            SameWordNear(s.prodTail, t);
          }
        case _ =>
      }
    case Consume(j) =>
      assert ConsumerOk(s, s.consumers[j]);
      match s.consumers[j] {
        case CClaim(h, _) =>
          if SameWord(s.consHead, h) {
            SameWordNear(h, s.consHead);
            FreshConsumerClaim(s, j);
          }
        case CPublish(t, _, _) =>
          if SameWord(s.consTail, t) {
            SameWordNear(s.consTail, t);
          }
        case _ =>
      }
    case _ =>
  }

  lemma ShapeKept(s: State, a: Action)
    requires Enabled(s, a)
    ensures var s2 := Next(s, a);
            s2.sync == s.sync && s2.bits == s.bits
            && |s2.producers| == |s.producers| && |s2.consumers| == |s.consumers|
  {
    match a
    case Produce(i) => ProducerKeepsShape(s, i);
    case Consume(j) => ConsumerKeepsShape(s, j);
    case _ =>
  }

  lemma ProducerKeepsShape(s: State, i: nat)
    requires Enabled(s, Produce(i))
    ensures var s2 := ProducerNext(s, i);
            s2.sync == s.sync && s2.bits == s.bits && |s2.producers| == |s.producers| && s2.consumers == s.consumers
  {
  }

  lemma ConsumerKeepsShape(s: State, j: nat)
    requires Enabled(s, Consume(j))
    ensures var s2 := ConsumerNext(s, j);
            s2.sync == s.sync && s2.bits == s.bits && s2.producers == s.producers && |s2.consumers| == |s.consumers|
  {
  }

  // Any number of producers and consumers whose publications wait for their turn: at every state
  // the counters are ordered within a capacity, and nothing undefined has happened.
  lemma {:induction false} WaitingRunsAreSound(run: seq<State>, acts: seq<Action>, k: nat)
    requires Run(run, acts) && k < |run| && run[0].sync == MTInOrder && run[0].bits <= 31
    requires forall j :: 0 <= j < k ==> NotLapped(run[j])
    ensures run[k].sync == MTInOrder && Inv(run[k])
    ensures var s := run[k];
            && s.consTail <= s.consHead <= s.prodTail <= s.prodHead <= s.consTail + Cap(s)
            && !s.fault && forall t :: t in s.got ==> t < |s.log| && s.got[t] == s.log[t]
  {
    if k == 0 {
      InitInv(run[0]);
    } else {
      WaitingRunsAreSound(run, acts, k - 1);
      assert StepAt(run, acts, k - 1);
      WaitingStepsAreInTurn(run[k - 1], acts[k - 1]);
      KeepsExactlyInTurn(run[k - 1], acts[k - 1]);
      ShapeKept(run[k - 1], acts[k - 1]);
    }
  }

  // No two operations in flight, on either side, are at work on the same slot.
  lemma InFlightSlotsDiffer(s: State, t: nat, t2: nat)
    requires Inv(s) && t != t2
    requires ProducerOf(s, t) || ConsumerOf(s, t)
    requires ProducerOf(s, t2) || ConsumerOf(s, t2)
    ensures Index(s.bits, t) != Index(s.bits, t2)
  {
    InWindow(s, t);
    InWindow(s, t2);
    if t < t2 {
      SlotsDiffer(s.bits, t, t2);
    } else {
      SlotsDiffer(s.bits, t2, t);
    }
  }

  lemma InWindow(s: State, t: nat)
    requires Inv(s) && (ProducerOf(s, t) || ConsumerOf(s, t))
    ensures s.consTail <= t < s.consTail + Cap(s)
  {
    if ProducerOf(s, t) {
      var i :| 0 <= i < |s.producers| && PTicket(s.producers[i]) == Some(t);
      assert ProducerOk(s, s.producers[i]);
    } else {
      var j :| 0 <= j < |s.consumers| && CTicket(s.consumers[j]) == Some(t);
      assert ConsumerOk(s, s.consumers[j]);
    }
  }

  // ----- one producer and at most one consumer -----

  ghost predicate Solo(s: State) {
    && |s.producers| == 1 && |s.consumers| <= 1
    && (match s.producers[0]
        case PLoaded(_, h) => h == s.prodHead
        case PClaim(_, h, _) => h == s.prodHead
        case PPublish(t, e) => e == t
        case _ => true)
    && (|s.consumers| == 1 ==>
          match s.consumers[0]
          case CLoaded(h) => h == s.consHead
          case CClaim(h, _) => h == s.consHead
          case CPublish(t, e, _) => e == t
          case _ => true)
  }

  // The one producer's ticket is the only one between tail and head, likewise the consumer's.
  lemma SoloProducer(s: State)
    requires Inv(s) && Solo(s)
    ensures match PTicket(s.producers[0])
            case Some(t) => t == s.prodTail && s.prodHead == t + 1
            case None => s.prodTail == s.prodHead
  {
    assert ProducerOk(s, s.producers[0]);
    if s.prodTail < s.prodHead {
      assert ProducerOf(s, s.prodTail) && ProducerOf(s, s.prodHead - 1);
    }
  }

  lemma SoloConsumer(s: State)
    requires Inv(s) && Solo(s) && |s.consumers| == 1
    ensures match CTicket(s.consumers[0])
            case Some(t) => t == s.consTail && s.consHead == t + 1
            case None => s.consTail == s.consHead
  {
    assert ConsumerOk(s, s.consumers[0]);
    if s.consTail < s.consHead {
      assert ConsumerOf(s, s.consTail) && ConsumerOf(s, s.consHead - 1);
    }
  }

  lemma SoloStepsAreInTurn(s: State, a: Action)
    requires Enabled(s, a) && Inv(s) && Solo(s)
    ensures InTurn(s, a) && Solo(Next(s, a))
  {
    match a
    case Produce(i) =>
      SoloProducer(s);
      if s.producers[i].PClaim? {
        FreshProducerClaim(s, i);
      }
    case Consume(j) =>
      SoloConsumer(s);
      if s.consumers[j].CClaim? {
        FreshConsumerClaim(s, j);
      }
    case _ =>
  }

  // With one producer and at most one consumer every run is sound in all three modes, however
  // often the 32-bit counters overflow.
  lemma {:induction false} SoloRunsAreSound(run: seq<State>, acts: seq<Action>, k: nat)
    requires Run(run, acts) && k < |run| && run[0].bits <= 31
    requires |run[0].producers| == 1 && |run[0].consumers| <= 1
    ensures Inv(run[k]) && Solo(run[k])
  {
    if k == 0 {
      InitInv(run[0]);
      InitSolo(run[0]);
    } else {
      SoloRunsAreSound(run, acts, k - 1);
      assert StepAt(run, acts, k - 1);
      SoloStepsAreInTurn(run[k - 1], acts[k - 1]);
      KeepsExactlyInTurn(run[k - 1], acts[k - 1]);
    }
  }

  lemma InitSolo(s: State)
    requires Init(s) && |s.producers| == 1 && |s.consumers| <= 1
    ensures Solo(s)
  {
    AllIdle(s);
  }

  // ----- the queue the ring stands for -----

  // The values published and not yet released.
  function Contents(s: State): seq<int>
    requires s.consTail <= s.prodTail <= |s.log|
  {
    s.log[s.consTail..s.prodTail]
  }

  // Whoever else is at work, a push that publishes in its turn appends its value to a queue that
  // has room, and nothing else that a producer does changes the queue.
  lemma PushRefinesFifo(s: State, i: nat)
    requires Enabled(s, Produce(i)) && Inv(s) && InTurn(s, Produce(i))
    ensures Inv(ProducerNext(s, i))
    ensures var s2 := ProducerNext(s, i);
            match s.producers[i]
            case PPublish(t, e) =>
              if PublishSucceeds(s.sync, s.prodTail, t, e) then
                t < |s.log| && |Contents(s)| < Cap(s) && Contents(s2) == Contents(s) + [s.log[t]]
              else Contents(s2) == Contents(s)
            case _ => Contents(s2) == Contents(s)
  {
    ProducerKeeps(s, i);
    assert ProducerOk(s, s.producers[i]);
  }

  lemma PopRefinesFifo(s: State, j: nat)
    requires Enabled(s, Consume(j)) && Inv(s) && InTurn(s, Consume(j))
    ensures Inv(ConsumerNext(s, j))
    ensures var s2 := ConsumerNext(s, j);
            match s.consumers[j]
            case CPublish(t, e, v) =>
              if PublishSucceeds(s.sync, s.consTail, t, e) then Contents(s) == [v] + Contents(s2)
              else Contents(s2) == Contents(s)
            case _ => Contents(s2) == Contents(s)
  {
    ConsumerKeeps(s, j);
    assert ConsumerOk(s, s.consumers[j]);
  }

  // A push gives up exactly when the head it loaded has the word of the head of a full ring. With
  // less than 2^32 between the two that means a full ring and a head that is still current.
  lemma PushGivesUpExactly(s: State, i: nat)
    requires Enabled(s, Produce(i)) && Inv(s) && s.producers[i].PLoaded?
    ensures var h := s.producers[i].head;
            && (ProducerNext(s, i).producers[i] == PIdle <==> SameWord(h, s.consTail + Cap(s)))
            && (s.consTail + Cap(s) < h + WRAP ==>
                  (SameWord(h, s.consTail + Cap(s)) <==> h == s.prodHead == s.consTail + Cap(s)))
  {
    var h := s.producers[i].head;
    assert ProducerOk(s, s.producers[i]);
    WrappedDistance(Cap(s), s.consTail, h);
    SameWordExactly(h, s.consTail + Cap(s));
  }

  // A pop gives up exactly when the head it loaded has the word of the producers' tail.
  lemma PopGivesUpExactly(s: State, j: nat)
    requires Enabled(s, Consume(j)) && Inv(s) && s.consumers[j].CLoaded?
    ensures var h := s.consumers[j].head;
            && (ConsumerNext(s, j).consumers[j] == CIdle <==> SameWord(h, s.prodTail))
            && (s.prodTail < h + WRAP ==> (SameWord(h, s.prodTail) <==> h == s.consHead == s.prodTail))
  {
    var h := s.consumers[j].head;
    assert ConsumerOk(s, s.consumers[j]);
    WrappedDistance(0, s.prodTail, h);
    SameWordExactly(h, s.prodTail);
  }

  // With one producer and at most one consumer each step of the producer appends one value,
  // fails, or changes nothing; it fails exactly when its load of cons_tail shows a full queue.
  lemma SoloPushRefinesFifo(s: State)
    requires Enabled(s, Produce(0)) && Inv(s) && Solo(s)
    ensures Inv(ProducerNext(s, 0))
    ensures var s2 := ProducerNext(s, 0);
            match s.producers[0]
            case PPublish(t, _) => t < |s.log| && |Contents(s)| < Cap(s) && Contents(s2) == Contents(s) + [s.log[t]]
            case PLoaded(v, _) =>
              && Contents(s2) == Contents(s)
              && (s2.producers[0] == PIdle <==> |Contents(s)| == Cap(s))
            case _ => Contents(s2) == Contents(s)
  {
    SoloStepsAreInTurn(s, Produce(0));
    PushRefinesFifo(s, 0);
    SoloProducer(s);
    if s.producers[0].PLoaded? {
      CapBelowWrap(s);
      PushGivesUpExactly(s, 0);
    }
  }

  // Each step of the consumer takes the front value, fails, or changes nothing; it fails exactly
  // when the queue is empty at its load of prod_tail.
  lemma SoloPopRefinesFifo(s: State)
    requires Enabled(s, Consume(0)) && Inv(s) && Solo(s)
    ensures Inv(ConsumerNext(s, 0))
    ensures var s2 := ConsumerNext(s, 0);
            match s.consumers[0]
            case CPublish(t, _, v) => Contents(s) == [v] + Contents(s2)
            case CLoaded(_) =>
              && Contents(s2) == Contents(s)
              && (s2.consumers[0] == CIdle <==> Contents(s) == [])
            case _ => Contents(s2) == Contents(s)
  {
    SoloStepsAreInTurn(s, Consume(0));
    PopRefinesFifo(s, 0);
    SoloConsumer(s);
    if s.consumers[0].CLoaded? {
      CapBelowWrap(s);
      PopGivesUpExactly(s, 0);
    }
  }
}
