// Exactly which numbers of producers and consumers, modes and capacities the ring is sound for.
module RteRingConfigurations {
  import opened RteRing
  import opened RteRingProofs
  import opened RteRingRuns

  // ----- the numbers of threads for which every run is sound -----

  ghost predicate NoProducers(s: State) {
    |s.producers| == 0 && s.prodHead == 0
  }

  // A ring of one slot, where two publications are never under way at once: a failed one would
  // have been the only one to lose its expected value.
  ghost predicate OneSlot(s: State) {
    && s.sync == MT && s.bits == 0
    && (forall i :: 0 <= i < |s.producers| ==>
          match s.producers[i] case PPublish(t, e) => e == t case _ => true)
    && (forall j :: 0 <= j < |s.consumers| ==>
          match s.consumers[j] case CPublish(t, e, _) => e == t case _ => true)
  }

  // Without consumers nothing is ever released, so that the heads stay far below 2^32.
  ghost predicate NoConsumers(s: State) {
    |s.consumers| == 0 && s.consTail == 0 && (s.sync == MTInOrder || OneSlot(s))
  }

  lemma NoProducersInTurn(s: State, a: Action)
    requires Enabled(s, a) && Inv(s) && NoProducers(s)
    ensures InTurn(s, a) && NoProducers(Next(s, a))
  {
    if a.Consume? {
      assert ConsumerOk(s, s.consumers[a.j]);
    }
  }

  lemma OneSlotInTurn(s: State, a: Action)
    requires Enabled(s, a) && Inv(s) && OneSlot(s) && NotLapped(s)
    ensures InTurn(s, a) && OneSlot(Next(s, a))
  {
    if a.Produce? {
      assert ProducerOk(s, s.producers[a.i]);
      if s.producers[a.i].PClaim? && SameWord(s.prodHead, s.producers[a.i].head) {
        SameWordNear(s.producers[a.i].head, s.prodHead);
        FreshProducerClaim(s, a.i);
      }
    } else if a.Consume? {
      assert ConsumerOk(s, s.consumers[a.j]);
      if s.consumers[a.j].CClaim? && SameWord(s.consHead, s.consumers[a.j].head) {
        SameWordNear(s.consumers[a.j].head, s.consHead);
        FreshConsumerClaim(s, a.j);
      }
    }
  }

  lemma NoConsumersInTurn(s: State, a: Action)
    requires Enabled(s, a) && Inv(s) && NoConsumers(s)
    ensures InTurn(s, a) && NoConsumers(Next(s, a))
  {
    CapBelowWrap(s);
    if s.sync == MTInOrder {
      WaitingStepsAreInTurn(s, a);
    } else {
      OneSlotInTurn(s, a);
    }
  }

  ghost predicate Careful(s: State) { NoProducers(s) || Solo(s) || NoConsumers(s) }

  lemma {:induction false} CarefulRunsAreSound(run: seq<State>, acts: seq<Action>, k: nat)
    requires Run(run, acts) && k < |run| && run[0].bits <= 31 && Careful(run[0])
    ensures Inv(run[k]) && Careful(run[k])
  {
    if k == 0 {
      InitInv(run[0]);
    } else {
      CarefulRunsAreSound(run, acts, k - 1);
      assert StepAt(run, acts, k - 1);
      var s, a := run[k - 1], acts[k - 1];
      if NoProducers(s) {
        NoProducersInTurn(s, a);
      } else if Solo(s) {
        SoloStepsAreInTurn(s, a);
      } else {
        NoConsumersInTurn(s, a);
      }
      KeepsExactlyInTurn(s, a);
    }
  }

  // p producers and c consumers at a ring of 2^bits slots.
  predicate Safe(sync: Sync, bits: nat, p: nat, c: nat) {
    || p == 0
    || (p == 1 && c <= 1)
    || (c == 0 && (sync == MTInOrder || (sync == MT && bits == 0)))
  }

  lemma SafeStartsCarefully(s: State)
    requires Init(s) && Safe(s.sync, s.bits, |s.producers|, |s.consumers|)
    ensures Careful(s)
  {
    if |s.producers| == 1 && |s.consumers| <= 1 {
      InitSolo(s);
    }
    AllIdle(s);
  }

  lemma UnsafeGoesWrong(sync: Sync, bits: nat, p: nat, c: nat) returns (s: State)
    requires bits <= 31 && !Safe(sync, bits, p, c)
    ensures Wrong(s) && Shaped(s, sync, bits, p, c)
  {
    if sync.ST? {
      if p > 1 {
        s := TwoSingleProducers(bits, p, c);
      } else {
        s := TwoSingleConsumers(bits, p, c);
      }
    } else if c > 1 {
      s := ConsumerLapped(sync, bits, p, c);
      Sound(s);
      GoesWrong(s, Consume(0));
      s := Next(s, Consume(0));
    } else if c == 1 {
      s := ProducerLapped(sync, bits, p, c);
      Sound(s);
      GoesWrong(s, Produce(0));
      s := Next(s, Produce(0));
    } else {
      s := ProducersRace(bits, p, c);
      Sound(s);
      GoesWrong(s, Produce(1));
      s := Next(s, Produce(1));
    }
  }

  ghost predicate AlwaysSound(sync: Sync, bits: nat, p: nat, c: nat) {
    forall run, acts, k :: Run(run, acts) && Shaped(run[0], sync, bits, p, c) && 0 <= k < |run| ==> Inv(run[k])
  }

  // Every run is sound exactly when there is no producer, or one producer and at most one
  // consumer, or no consumer at a ring where publications cannot overtake each other.
  lemma SoundConfigurations(sync: Sync, bits: nat, p: nat, c: nat)
    requires bits <= 31
    ensures AlwaysSound(sync, bits, p, c) <==> Safe(sync, bits, p, c)
  {
    if Safe(sync, bits, p, c) {
      forall run, acts, k | Run(run, acts) && Shaped(run[0], sync, bits, p, c) && 0 <= k < |run| ensures Inv(run[k]) {
        SafeStartsCarefully(run[0]);
        CarefulRunsAreSound(run, acts, k);
      }
    } else {
      var s := UnsafeGoesWrong(sync, bits, p, c);
      var run, acts :| Run(run, acts) && run[|run| - 1] == s;
      ShapeOfRun(run, acts, |run| - 1);
      assert Shaped(run[0], sync, bits, p, c) && !Inv(run[|run| - 1]);
    }
  }

  // ----- the same for the code's MT branch, leaving out runs that lap a thread -----

  // Two racing producers or two racing consumers go wrong long before any counter wraps.
  lemma RacesGoWrong(bits: nat, p: nat, c: nat) returns (s: State)
    requires 1 <= bits <= 31 && (p > 1 || (p == 1 && c > 1))
    ensures Wrong(s) && Shaped(s, MT, bits, p, c) && s.prodHead < WRAP && s.consHead < WRAP
  {
    if p > 1 {
      s := ProducersRace(bits, p, c);
      Sound(s);
      GoesWrong(s, Produce(1));
      s := Next(s, Produce(1));
    } else {
      s := ConsumersRace(bits, p, c);
      Sound(s);
      CapBelowWrap(s);
      GoesWrong(s, Consume(1));
      s := Next(s, Consume(1));
    }
  }

  lemma {:induction false} HeadsOnlyGrow(run: seq<State>, acts: seq<Action>, k: nat, m: nat)
    requires Run(run, acts) && k <= m < |run| && !run[0].sync.ST?
    ensures run[k].prodHead <= run[m].prodHead && run[k].consHead <= run[m].consHead
  {
    if k < m {
      HeadsOnlyGrow(run, acts, k, m - 1);
      ShapeOfRun(run, acts, m - 1);
      assert StepAt(run, acts, m - 1);
      HeadsStepUp(run[m - 1], acts[m - 1]);
    }
  }

  lemma HeadsStepUp(s: State, a: Action)
    requires Enabled(s, a) && !s.sync.ST?
    ensures s.prodHead <= Next(s, a).prodHead && s.consHead <= Next(s, a).consHead
  {
  }

  ghost predicate UnlappedUpTo(run: seq<State>, k: nat)
    requires k <= |run|
  {
    forall j :: 0 <= j < k ==> NotLapped(run[j])
  }

  ghost predicate SoundUnlessLapped(sync: Sync, bits: nat, p: nat, c: nat) {
    forall run, acts, k ::
      Run(run, acts) && Shaped(run[0], sync, bits, p, c) && 0 <= k < |run| && UnlappedUpTo(run, k) ==> Inv(run[k])
  }

  lemma {:induction false} OneSlotRunsAreSound(run: seq<State>, acts: seq<Action>, k: nat)
    requires Run(run, acts) && k < |run| && run[0].sync == MT && run[0].bits == 0 && UnlappedUpTo(run, k)
    ensures Inv(run[k]) && OneSlot(run[k])
  {
    if k == 0 {
      InitInv(run[0]);
      AllIdle(run[0]);
    } else {
      OneSlotRunsAreSound(run, acts, k - 1);
      assert StepAt(run, acts, k - 1);
      OneSlotInTurn(run[k - 1], acts[k - 1]);
      KeepsExactlyInTurn(run[k - 1], acts[k - 1]);
    }
  }

  // As long as nobody is lapped, the compare-exchange as written is sound exactly for one
  // producer with at most one consumer, for no producer, and at a ring of one slot; publication
  // in order is sound for any number of threads.
  lemma RacesAreTheTrouble(bits: nat, p: nat, c: nat)
    requires bits <= 31
    ensures SoundUnlessLapped(MT, bits, p, c) <==> bits == 0 || p == 0 || (p == 1 && c <= 1)
    ensures SoundUnlessLapped(MTInOrder, bits, p, c)
  {
    forall run, acts, k |
      Run(run, acts) && Shaped(run[0], MTInOrder, bits, p, c) && 0 <= k < |run| && UnlappedUpTo(run, k)
      ensures Inv(run[k])
    {
      WaitingRunsAreSound(run, acts, k);
    }
    if bits == 0 || p == 0 || (p == 1 && c <= 1) {
      forall run, acts, k |
        Run(run, acts) && Shaped(run[0], MT, bits, p, c) && 0 <= k < |run| && UnlappedUpTo(run, k)
        ensures Inv(run[k])
      {
        if bits == 0 {
          OneSlotRunsAreSound(run, acts, k);
        } else {
          SafeStartsCarefully(run[0]);
          CarefulRunsAreSound(run, acts, k);
        }
      }
    } else {
      RacesAreUnlapped(bits, p, c);
    }
  }

  lemma RacesAreUnlapped(bits: nat, p: nat, c: nat)
    requires 1 <= bits <= 31 && (p > 1 || (p == 1 && c > 1))
    ensures !SoundUnlessLapped(MT, bits, p, c)
  {
    var s := RacesGoWrong(bits, p, c);
    var run, acts :| Run(run, acts) && run[|run| - 1] == s;
    var k := |run| - 1;
    ShapeOfRun(run, acts, k);
    forall j | 0 <= j < k ensures NotLapped(run[j]) {
      HeadsOnlyGrow(run, acts, j, k);
    }
    assert Shaped(run[0], MT, bits, p, c) && UnlappedUpTo(run, k) && !Inv(run[k]);
  }

  // ----- capacities beyond the counters -----

  // The room of an empty ring, as the program computes it, is zero exactly when the capacity is
  // a multiple of 2^32.
  lemma OversizedExactly(bits: nat, t: nat)
    ensures Available(Pow2(bits), t, t) == 0 <==> bits >= 32
  {
    Pow2Positive(bits);
    if bits >= 32 {
      MultipleOfWrap(bits);
    } else {
      Pow2Monotone(bits, 31);
      WrapIsPow2();
    }
  }

  lemma {:induction false} MultipleOfWrap(bits: nat)
    requires bits >= 32
    ensures Pow2(bits) % WRAP == 0
  {
    if bits == 32 {
      WrapIsPow2();
    } else {
      MultipleOfWrap(bits - 1);
      var q := Pow2(bits - 1) / WRAP;
      assert Pow2(bits) == 2 * Pow2(bits - 1) == 0 + WRAP * (2 * q);
      ModShift(0, 2 * q);
    }
  }

  // Nobody gets past its first test.
  ghost predicate Stuck(s: State) {
    && s.bits >= 32 && s.prodHead == s.prodTail == s.consHead == s.consTail == 0 && !s.fault
    && (forall i :: 0 <= i < |s.producers| ==>
          s.producers[i] == PIdle || s.producers[i].PStart? || (s.producers[i].PLoaded? && s.producers[i].head == 0))
    && (forall j :: 0 <= j < |s.consumers| ==>
          s.consumers[j] == CIdle || s.consumers[j] == CStart || s.consumers[j] == CLoaded(0))
  }

  lemma StuckStays(s: State, a: Action)
    requires Enabled(s, a) && Stuck(s)
    ensures Stuck(Next(s, a))
  {
    OversizedExactly(s.bits, 0);
  }

  lemma {:induction false} OversizedRunsAreStuck(run: seq<State>, acts: seq<Action>, k: nat)
    requires Run(run, acts) && k < |run| && run[0].bits >= 32
    ensures Stuck(run[k])
  {
    if k == 0 {
      AllIdle(run[0]);
    } else {
      OversizedRunsAreStuck(run, acts, k - 1);
      assert StepAt(run, acts, k - 1);
      StuckStays(run[k - 1], acts[k - 1]);
    }
  }

  ghost predicate CanPush(sync: Sync, bits: nat, p: nat, c: nat) {
    exists s :: Reached(s) && Shaped(s, sync, bits, p, c) && s.prodTail > 0
  }

  // A ring with producers can take a value at all exactly when its capacity is below 2^32.
  lemma TakesValuesExactlyBelowWrap(sync: Sync, bits: nat, p: nat, c: nat)
    requires p > 0
    ensures CanPush(sync, bits, p, c) <==> bits < 32
  {
    if bits < 32 {
      Starts(sync, bits, p, c);
      Pow2Positive(bits);
      var s := Pushes(Start(sync, bits, p, c), 0, 7);
      assert Reached(s) && Shaped(s, sync, bits, p, c) && s.prodTail > 0;
    } else if CanPush(sync, bits, p, c) {
      var s :| Reached(s) && Shaped(s, sync, bits, p, c) && s.prodTail > 0;
      var run, acts :| Run(run, acts) && run[|run| - 1] == s;
      ShapeOfRun(run, acts, |run| - 1);
      OversizedRunsAreStuck(run, acts, |run| - 1);
      assert false;
    }
  }
}
