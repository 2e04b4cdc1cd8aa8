// What the callers of push and pop can see: exactly which numbers of threads, modes and
// capacities ever let a push fail on a ring with room, a pop fail on a ring with elements, or an
// operation touch a slot that it must not touch.
module RteRingFailures {
  import opened RteRing
  import opened RteRingProofs
  import opened RteRingRuns
  import opened RteRingConfigurations

  // ----- failing without cause -----

  // At its load of cons_tail this push gives up although the ring has room.
  ghost predicate FailsWithRoom(s: State, i: nat) {
    && Enabled(s, Produce(i)) && s.producers[i].PLoaded? && ProducerNext(s, i).producers[i] == PIdle
    && s.prodHead < s.consTail + Cap(s)
  }

  // At its load of prod_tail this pop gives up although an element is there to claim.
  ghost predicate FailsWithElement(s: State, j: nat) {
    && Enabled(s, Consume(j)) && s.consumers[j].CLoaded? && ConsumerNext(s, j).consumers[j] == CIdle
    && s.consHead < s.prodTail
  }

  // In every mode: the first producer loads its head as 0, 2^32 - capacity values pass through,
  // and at its load of cons_tail the room of the empty ring comes out as zero.
  lemma PushFailsOnEmptyRing(sync: Sync, bits: nat, p: nat, c: nat) returns (s: State)
    requires bits <= 31 && p > 1 && c > 0
    ensures Good(s) && Shaped(s, sync, bits, p, c) && FailsWithRoom(s, 0)
    ensures s.prodHead == s.prodTail == s.consHead == s.consTail
  {
    Starts(sync, bits, p, c);
    s := Start(sync, bits, p, c);
    CapBelowWrap(s);
    s := LoadsHead(s, 0, 7);
    s := GoThrough(s, 1, 0, WRAP - Cap(s));
    Sound(s);
    PushGivesUpExactly(s, 0);
  }

  // The first consumer loads its head as 0, and finds the word of a full ring's tail to be 0.
  lemma PopFailsOnFullRing(sync: Sync, bits: nat, p: nat, c: nat) returns (s: State)
    requires bits <= 31 && p > 0 && c > 1
    ensures Good(s) && Shaped(s, sync, bits, p, c) && FailsWithElement(s, 0)
    ensures s.prodHead == s.prodTail == s.consTail + Cap(s) && s.consHead == s.consTail
  {
    Starts(sync, bits, p, c);
    s := Start(sync, bits, p, c);
    CapBelowWrap(s);
    s := LoadsConsumerHead(s, 0);
    s := GoThrough(s, 0, 1, WRAP - Cap(s));
    s := Fills(s, 0, Cap(s));
    Sound(s);
    PopGivesUpExactly(s, 0);
  }

  // A head that a lone thread has loaded stays current, and a side without threads stands still.
  ghost predicate ProducersFew(s: State) {
    && (|s.producers| == 0 ==> s.prodTail == 0)
    && (|s.producers| == 1 ==>
          match s.producers[0]
          case PLoaded(_, h) => h == s.prodHead
          case PClaim(_, h, _) => h == s.prodHead
          case _ => true)
  }

  ghost predicate ConsumersFew(s: State) {
    && (|s.consumers| == 0 ==> s.consTail == 0)
    && (|s.consumers| == 1 ==>
          match s.consumers[0]
          case CLoaded(h) => h == s.consHead
          case CClaim(h, _) => h == s.consHead
          case _ => true)
  }

  lemma FewStay(s: State, a: Action)
    requires Enabled(s, a) && ProducersFew(s) && ConsumersFew(s)
    ensures ProducersFew(Next(s, a)) && ConsumersFew(Next(s, a))
  {
    match a
    case Produce(i) => ProducerKeepsShape(s, i);
    case Consume(j) => ConsumerKeepsShape(s, j);
    case _ =>
  }

  lemma {:induction false} FewAlong(run: seq<State>, acts: seq<Action>, k: nat)
    requires Run(run, acts) && k < |run|
    ensures ProducersFew(run[k]) && ConsumersFew(run[k])
  {
    if k == 0 {
      AllIdle(run[0]);
    } else {
      FewAlong(run, acts, k - 1);
      assert StepAt(run, acts, k - 1);
      FewStay(run[k - 1], acts[k - 1]);
    }
  }

  lemma NoFalseFull(s: State, i: nat)
    requires Inv(s) && ProducersFew(s) && ConsumersFew(s) && (|s.producers| <= 1 || |s.consumers| == 0)
    ensures !FailsWithRoom(s, i)
  {
    if FailsWithRoom(s, i) {
      CapBelowWrap(s);
      assert ProducerOk(s, s.producers[i]);
      PushGivesUpExactly(s, i);
      assert false;
    }
  }

  lemma NoFalseEmpty(s: State, j: nat)
    requires Inv(s) && ProducersFew(s) && ConsumersFew(s) && (|s.consumers| <= 1 || |s.producers| == 0)
    ensures !FailsWithElement(s, j)
  {
    if FailsWithElement(s, j) {
      CapBelowWrap(s);
      assert ConsumerOk(s, s.consumers[j]);
      PopGivesUpExactly(s, j);
      assert false;
    }
  }

  ghost predicate PushTrusted(sync: Sync, bits: nat, p: nat, c: nat) {
    forall run, acts, k, i ::
      Run(run, acts) && Shaped(run[0], sync, bits, p, c) && 0 <= k < |run| && Inv(run[k]) ==> !FailsWithRoom(run[k], i)
  }

  ghost predicate PopTrusted(sync: Sync, bits: nat, p: nat, c: nat) {
    forall run, acts, k, j ::
      Run(run, acts) && Shaped(run[0], sync, bits, p, c) && 0 <= k < |run| && Inv(run[k]) ==> !FailsWithElement(run[k], j)
  }

  // In a sound state a failed push means a full ring exactly when there is at most one producer
  // or no consumer; with any other numbers of threads some run fails a push on an empty ring.
  lemma PushFailureMeansFull(sync: Sync, bits: nat, p: nat, c: nat)
    requires bits <= 31
    ensures PushTrusted(sync, bits, p, c) <==> p <= 1 || c == 0
  {
    if p <= 1 || c == 0 {
      forall run, acts, k, i |
        Run(run, acts) && Shaped(run[0], sync, bits, p, c) && 0 <= k < |run| && Inv(run[k])
        ensures !FailsWithRoom(run[k], i)
      {
        ShapeOfRun(run, acts, k);
        FewAlong(run, acts, k);
        NoFalseFull(run[k], i);
      }
    } else {
      var s := PushFailsOnEmptyRing(sync, bits, p, c);
      Sound(s);
      var run, acts := RunTo(s, sync, bits, p, c);
      assert Inv(run[|run| - 1]) && FailsWithRoom(run[|run| - 1], 0);
    }
  }

  lemma PopFailureMeansEmpty(sync: Sync, bits: nat, p: nat, c: nat)
    requires bits <= 31
    ensures PopTrusted(sync, bits, p, c) <==> c <= 1 || p == 0
  {
    if c <= 1 || p == 0 {
      forall run, acts, k, j |
        Run(run, acts) && Shaped(run[0], sync, bits, p, c) && 0 <= k < |run| && Inv(run[k])
        ensures !FailsWithElement(run[k], j)
      {
        ShapeOfRun(run, acts, k);
        FewAlong(run, acts, k);
        NoFalseEmpty(run[k], j);
      }
    } else {
      var s := PopFailsOnFullRing(sync, bits, p, c);
      Sound(s);
      var run, acts := RunTo(s, sync, bits, p, c);
      assert Inv(run[|run| - 1]) && FailsWithElement(run[|run| - 1], 0);
    }
  }

  lemma RunTo(s: State, sync: Sync, bits: nat, p: nat, c: nat) returns (run: seq<State>, acts: seq<Action>)
    requires Reached(s) && Shaped(s, sync, bits, p, c)
    ensures Run(run, acts) && run[|run| - 1] == s && Shaped(run[0], sync, bits, p, c)
  {
    run, acts :| Run(run, acts) && run[|run| - 1] == s;
    ShapeOfRun(run, acts, |run| - 1);
  }

  // ----- touching a slot wrongly -----

  // Two producers of the ST branch claim the same ticket, and the second constructs over the
  // element of the first.
  lemma SingleProducersOverwrite(bits: nat, p: nat, c: nat) returns (s: State)
    requires bits <= 31 && p > 1
    ensures Reached(s) && Shaped(s, ST, bits, p, c) && s.fault
  {
    Starts(ST, bits, p, c);
    s := Start(ST, bits, p, c);
    Pow2Positive(bits);
    s := Loads(s, 0, 10);
    s := Loads(s, 1, 20);
    s := Claims(s, 0);
    s := Writes(s, 0);
    Sound(s);
    assert ProducerOk(s, s.producers[0]);
    IndexInRange(bits, 0);
    assert At(s, 0).Full?;
    s := ClaimAndTouch(s);
  }

  lemma ClaimAndTouch(s: State) returns (s2: State)
    requires Reached(s) && |s.slots| == Cap(s) && s.sync == ST && |s.producers| > 1
    requires s.producers[1] == PClaim(20, 0, 0) && At(s, 0).Full?
    ensures Reached(s2) && Shaped(s2, ST, s.bits, |s.producers|, |s.consumers|) && s2.fault
  {
    IndexInRange(s.bits, 0);
    ReachNext(s, Produce(1));
    s2 := Next(s, Produce(1));
    assert s2.producers[1] == PWrite(0, 20) && s2.slots == s.slots;
    ReachNext(s2, Produce(1));
    s2 := Next(s2, Produce(1));
  }

  // Two consumers of the ST branch claim the same ticket, and the second moves out of the slot
  // that the first has destroyed.
  lemma SingleConsumersReadRawSlot(bits: nat, p: nat, c: nat) returns (s: State)
    requires bits <= 31 && p > 0 && c > 1
    ensures Reached(s) && Shaped(s, ST, bits, p, c) && s.fault
  {
    Starts(ST, bits, p, c);
    s := Start(ST, bits, p, c);
    Pow2Positive(bits);
    s := Pushes(s, 0, 7);
    s := LoadsTail(s, 0);
    s := LoadsTail(s, 1);
    s := ClaimsElement(s, 0);
    s := MovesOut(s, 0);
    s := Destroys(s, 0);
    Sound(s);
    assert ConsumerOk(s, s.consumers[0]);
    s := ClaimAndMove(s);
  }

  lemma ClaimAndMove(s: State) returns (s2: State)
    requires Reached(s) && |s.slots| == Cap(s) && s.sync == ST && |s.consumers| > 1
    requires s.consumers[1] == CClaim(0, 1) && At(s, 0) == Raw
    ensures Reached(s2) && Shaped(s2, ST, s.bits, |s.producers|, |s.consumers|) && s2.fault
  {
    IndexInRange(s.bits, 0);
    ReachNext(s, Consume(1));
    s2 := Next(s, Consume(1));
    assert s2.consumers[1] == CMove(0) && s2.slots == s.slots;
    ReachNext(s2, Consume(1));
    s2 := Next(s2, Consume(1));
  }

  // Without consumers, and with the head moved by compare-exchange, every ticket is claimed once
  // and below the capacity, however the tail is published.
  ghost predicate OnlyFilling(s: State) {
    && |s.consumers| == 0 && s.consTail == 0 && !s.sync.ST? && s.bits <= 31
    && |s.slots| == Cap(s) && s.prodHead <= Cap(s) && !s.fault
    && (forall i :: 0 <= i < |s.producers| ==> FillerOk(s, s.producers[i]))
    && (forall i, k :: 0 <= i < k < |s.producers| && s.producers[i].PWrite? && s.producers[k].PWrite? ==>
          s.producers[i].ticket != s.producers[k].ticket)
    && (forall t: nat :: s.prodHead <= t < Cap(s) ==> At(s, t) == Raw)
  }

  ghost predicate FillerOk(s: State, pc: ProducerPc)
    requires |s.slots| == Cap(s)
  {
    match pc
    case PLoaded(_, h) => h <= s.prodHead
    case PClaim(_, h, l) => h <= s.prodHead && h < Cap(s)
    case PWrite(t, _) => t < s.prodHead && At(s, t) == Raw
    case _ => true
  }

  lemma FillingStays(s: State, a: Action)
    requires Enabled(s, a) && OnlyFilling(s)
    ensures OnlyFilling(Next(s, a))
  {
    CapBelowWrap(s);
    match a
    case Produce(i) =>
      assert FillerOk(s, s.producers[i]);
      if s.producers[i].PWrite? {
        FillingWrites(s, i);
      } else {
        FillingMoves(s, i);
      }
    case PushCall(i, v) => SlotsSame(s, Next(s, a));
    case _ =>
  }

  lemma FillingWrites(s: State, i: nat)
    requires Enabled(s, Produce(i)) && OnlyFilling(s) && s.producers[i].PWrite? && FillerOk(s, s.producers[i])
    ensures OnlyFilling(ProducerNext(s, i))
  {
    var s2, t := ProducerNext(s, i), s.producers[i].ticket;
    TicketWritten(s, s2, 0, t, Full(s.producers[i].v));
    forall k | 0 <= k < |s2.producers| ensures FillerOk(s2, s2.producers[k]) {
      assert FillerOk(s, s.producers[k]);
    }
  }

  lemma FillingMoves(s: State, i: nat)
    requires Enabled(s, Produce(i)) && OnlyFilling(s) && !s.producers[i].PWrite? && FillerOk(s, s.producers[i])
    requires Cap(s) < WRAP
    ensures OnlyFilling(ProducerNext(s, i))
  {
    var s2 := ProducerNext(s, i);
    SlotsSame(s, s2);
    match s.producers[i] {
      case PLoaded(_, h) => WrappedDistance(Cap(s), 0, h);
      case PClaim(_, h, _) =>
        if SameWord(s.prodHead, h) {
          SameWordNear(h, s.prodHead);
        }
      case _ =>
    }
    forall k | 0 <= k < |s2.producers| ensures FillerOk(s2, s2.producers[k]) {
      assert FillerOk(s, s.producers[k]);
    }
  }

  lemma {:induction false} FillingRuns(run: seq<State>, acts: seq<Action>, k: nat)
    requires Run(run, acts) && k < |run| && run[0].bits <= 31 && |run[0].consumers| == 0 && !run[0].sync.ST?
    ensures OnlyFilling(run[k])
  {
    if k == 0 {
      InitInv(run[0]);
      AllIdle(run[0]);
    } else {
      FillingRuns(run, acts, k - 1);
      assert StepAt(run, acts, k - 1);
      FillingStays(run[k - 1], acts[k - 1]);
    }
  }

  ghost predicate NeverFaults(sync: Sync, bits: nat, p: nat, c: nat) {
    forall run: seq<State>, acts, k ::
      Run(run, acts) && Shaped(run[0], sync, bits, p, c) && 0 <= k < |run| ==> !run[k].fault
  }

  predicate Harmless(sync: Sync, bits: nat, p: nat, c: nat) {
    bits >= 32 || p == 0 || (p == 1 && c <= 1) || (c == 0 && !sync.ST?)
  }

  lemma HarmlessRun(run: seq<State>, acts: seq<Action>, k: nat)
    requires Run(run, acts) && k < |run|
    requires var s := run[0]; Harmless(s.sync, s.bits, |s.producers|, |s.consumers|)
    ensures !run[k].fault
  {
    var s := run[0];
    if s.bits >= 32 {
      OversizedRunsAreStuck(run, acts, k);
    } else if |s.producers| == 0 || (|s.producers| == 1 && |s.consumers| <= 1) {
      SafeStartsCarefully(s);
      CarefulRunsAreSound(run, acts, k);
    } else {
      FillingRuns(run, acts, k);
    }
  }

  lemma HarmfulRun(sync: Sync, bits: nat, p: nat, c: nat) returns (s: State)
    requires !Harmless(sync, bits, p, c)
    ensures Reached(s) && Shaped(s, sync, bits, p, c) && s.fault
  {
    if sync.ST? {
      if p > 1 {
        s := SingleProducersOverwrite(bits, p, c);
      } else {
        s := SingleConsumersReadRawSlot(bits, p, c);
      }
    } else if p > 1 {
      s := LappedClaimOverwrites(sync, bits, p, c);
    } else {
      s := LappedClaimReadsRawSlot(sync, bits, p, c);
    }
  }

  // No run ever constructs over a live element, nor reads or destroys a raw slot, exactly when
  // there is no producer, or one producer and at most one consumer, or no consumer and a claim
  // by compare-exchange; or when the ring is too large to be used at all.
  lemma FaultFreeConfigurations(sync: Sync, bits: nat, p: nat, c: nat)
    ensures NeverFaults(sync, bits, p, c) <==> Harmless(sync, bits, p, c)
  {
    if Harmless(sync, bits, p, c) {
      forall run: seq<State>, acts, k | Run(run, acts) && Shaped(run[0], sync, bits, p, c) && 0 <= k < |run|
        ensures !run[k].fault
      {
        HarmlessRun(run, acts, k);
      }
    } else {
      var s := HarmfulRun(sync, bits, p, c);
      var run, acts := RunTo(s, sync, bits, p, c);
      assert run[|run| - 1].fault;
    }
  }
}
