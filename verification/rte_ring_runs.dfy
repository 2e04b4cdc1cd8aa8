// Runs of the ring built one step at a time, for any capacity and any number of threads: whole
// pushes and pops, and runs in which the ring goes wrong.
module RteRingRuns {
  import opened RteRing
  import opened RteRingProofs

  ghost predicate Shaped(s: State, sync: Sync, bits: nat, p: nat, c: nat) {
    s.sync == sync && s.bits == bits && |s.producers| == p && |s.consumers| == c
  }

  lemma {:induction false} ShapeOfRun(run: seq<State>, acts: seq<Action>, k: nat)
    requires Run(run, acts) && k < |run|
    ensures var s := run[0]; Shaped(run[k], s.sync, s.bits, |s.producers|, |s.consumers|)
  {
    if k > 0 {
      ShapeOfRun(run, acts, k - 1);
      assert StepAt(run, acts, k - 1);
      ShapeKept(run[k - 1], acts[k - 1]);
    }
  }

  // ----- building runs -----

  ghost predicate Reached(s: State) {
    exists run, acts :: Run(run, acts) && run[|run| - 1] == s
  }

  lemma ReachNext(s: State, a: Action)
    requires Reached(s) && Enabled(s, a)
    ensures Reached(Next(s, a))
  {
    var run, acts :| Run(run, acts) && run[|run| - 1] == s;
    RunExtends(run, acts, a);
    var run2 := run + [Next(s, a)];
    assert Run(run2, acts + [a]) && run2[|run2| - 1] == Next(s, a);
  }

  lemma RunExtends(run: seq<State>, acts: seq<Action>, a: Action)
    requires Run(run, acts) && Enabled(run[|run| - 1], a)
    ensures Run(run + [Next(run[|run| - 1], a)], acts + [a])
  {
    var run2, acts2 := run + [Next(run[|run| - 1], a)], acts + [a];
    forall k | 0 <= k < |acts2| ensures StepAt(run2, acts2, k) {
      assert run2[k] == run[k];
      if k < |acts| {
        assert StepAt(run, acts, k);
        assert run2[k + 1] == run[k + 1] && acts2[k] == acts[k];
      }
    }
  }

  // A state of some run that has been sound so far.
  ghost predicate Good(s: State) {
    exists run, acts :: SoundRun(run, acts) && run[|run| - 1] == s
  }

  ghost predicate SoundRun(run: seq<State>, acts: seq<Action>) {
    Run(run, acts) && forall k {:trigger Inv(run[k])} :: 0 <= k < |run| ==> Inv(run[k])
  }

  lemma Sound(s: State)
    requires Good(s)
    ensures Reached(s) && Inv(s)
  {
    var run, acts :| SoundRun(run, acts) && run[|run| - 1] == s;
    assert Inv(run[|run| - 1]);
  }

  lemma GoodNext(s: State, a: Action)
    requires Good(s) && Enabled(s, a) && InTurn(s, a)
    ensures Good(Next(s, a))
  {
    var run, acts :| SoundRun(run, acts) && run[|run| - 1] == s;
    assert Inv(run[|run| - 1]);
    KeepsExactlyInTurn(s, a);
    RunExtends(run, acts, a);
    var run2 := run + [Next(s, a)];
    forall k | 0 <= k < |run2| ensures Inv(run2[k]) {
      if k < |run| {
        assert run2[k] == run[k] && Inv(run[k]);
      }
    }
    assert SoundRun(run2, acts + [a]) && run2[|run2| - 1] == Next(s, a);
  }

  // A run that is no longer sound.
  ghost predicate Wrong(s: State) { Reached(s) && !Inv(s) }

  lemma GoesWrong(s: State, a: Action)
    requires Good(s) && Enabled(s, a) && !InTurn(s, a)
    ensures Wrong(Next(s, a))
  {
    Sound(s);
    ReachNext(s, a);
    KeepsExactlyInTurn(s, a);
  }

  function Start(sync: Sync, bits: nat, p: nat, c: nat): State {
    State(sync, bits, 0, 0, 0, 0, seq(Pow2(bits), _ => Raw), seq(p, _ => PIdle), seq(c, _ => CIdle), [], map[], false)
  }

  lemma Starts(sync: Sync, bits: nat, p: nat, c: nat)
    ensures Reached(Start(sync, bits, p, c))
    ensures bits <= 31 ==> Good(Start(sync, bits, p, c))
  {
    var s := Start(sync, bits, p, c);
    assert Run([s], []);
    if bits <= 31 {
      InitInv(s);
      assert SoundRun([s], []);
    }
  }

  // ----- pushing, part by part -----

  // A producer loads its head; if it then finds room it has loaded both counters.
  lemma LoadsHead(s: State, i: nat, v: int) returns (s2: State)
    requires Good(s) && i < |s.producers| && s.producers[i] == PIdle
    ensures Good(s2) && s2 == s.(producers := s.producers[i := PLoaded(v, s.prodHead)])
  {
    Sound(s);
    GoodNext(s, PushCall(i, v));
    s2 := s.(producers := s.producers[i := PStart(v)]);
    GoodNext(s2, Produce(i));
    s2 := Next(s2, Produce(i));
  }

  lemma Loads(s: State, i: nat, v: int) returns (s2: State)
    requires Good(s) && i < |s.producers| && s.producers[i] == PIdle && s.prodHead < s.consTail + Cap(s)
    ensures Good(s2) && s2 == s.(producers := s.producers[i := PClaim(v, s.prodHead, s.consTail)])
  {
    Sound(s);
    GoodNext(s, PushCall(i, v));
    s2 := s.(producers := s.producers[i := PStart(v)]);
    s2 := Reloads(s2, i);
  }

  lemma FindsRoom(s: State)
    requires Inv(s) && s.prodHead < s.consTail + Cap(s)
    ensures Available(Cap(s), s.consTail, s.prodHead) != 0
  {
    CapBelowWrap(s);
    WrappedDistance(Cap(s), s.consTail, s.prodHead);
  }

  lemma Claims(s: State, i: nat) returns (s2: State)
    requires Good(s) && i < |s.producers| && s.producers[i].PClaim? && s.producers[i].head == s.prodHead
    ensures Good(s2)
    ensures var v := s.producers[i].v;
            s2 == s.(prodHead := s.prodHead + 1, producers := s.producers[i := PWrite(s.prodHead, v)], log := s.log + [v])
  {
    Sound(s);
    FreshProducerClaim(s, i);
    GoodNext(s, Produce(i));
    s2 := Next(s, Produce(i));
  }

  lemma Writes(s: State, i: nat) returns (s2: State)
    requires Good(s) && i < |s.producers| && s.producers[i].PWrite?
    ensures Good(s2)
    ensures var t := s.producers[i].ticket;
            s2 == s.(slots := s2.slots, producers := s.producers[i := PPublish(t, t)])
  {
    Sound(s);
    GoodNext(s, Produce(i));
    s2 := Next(s, Produce(i));
  }

  lemma Publishes(s: State, i: nat) returns (s2: State)
    requires Good(s) && i < |s.producers| && s.producers[i] == PPublish(s.prodTail, s.prodTail)
    ensures Good(s2)
    ensures s2 == s.(prodTail := s.prodTail + 1, producers := s.producers[i := PIdle])
  {
    Sound(s);
    GoodNext(s, Produce(i));
    s2 := Next(s, Produce(i));
  }

  // A whole push while no other is between its claim and its publication.
  lemma Pushes(s: State, i: nat, v: int) returns (s2: State)
    requires Good(s) && i < |s.producers| && s.producers[i] == PIdle
    requires s.prodTail == s.prodHead < s.consTail + Cap(s)
    ensures Good(s2)
    ensures s2 == s.(prodHead := s.prodHead + 1, prodTail := s.prodTail + 1, slots := s2.slots, log := s.log + [v])
  {
    s2 := Loads(s, i, v);
    s2 := Claims(s2, i);
    s2 := Writes(s2, i);
    s2 := Publishes(s2, i);
    assert s2.producers == s.producers;
  }

  // A push that has lost the race for the head, left alone, takes the next ticket with the value
  // it came with, as long as it was not lapped and there is room.
  lemma RetriesPush(s: State, i: nat) returns (s2: State)
    requires Good(s) && !s.sync.ST? && i < |s.producers| && s.producers[i].PClaim?
    requires s.producers[i].head != s.prodHead < s.producers[i].head + WRAP
    requires s.prodTail == s.prodHead < s.consTail + Cap(s)
    ensures Good(s2)
    ensures var v := s.producers[i].v;
            s2 == s.(prodHead := s.prodHead + 1, prodTail := s.prodTail + 1, slots := s2.slots, log := s.log + [v],
                     producers := s.producers[i := PIdle])
  {
    s2 := LosesRace(s, i);
    s2 := Reloads(s2, i);
    s2 := Claims(s2, i);
    s2 := Writes(s2, i);
    s2 := Publishes(s2, i);
  }

  lemma LosesRace(s: State, i: nat) returns (s2: State)
    requires Good(s) && !s.sync.ST? && i < |s.producers| && s.producers[i].PClaim?
    requires s.producers[i].head != s.prodHead < s.producers[i].head + WRAP
    ensures Good(s2) && s2 == s.(producers := s.producers[i := PStart(s.producers[i].v)])
  {
    Sound(s);
    assert ProducerOk(s, s.producers[i]);
    SameWordExactly(s.producers[i].head, s.prodHead);
    GoodNext(s, Produce(i));
    s2 := Next(s, Produce(i));
  }

  lemma Reloads(s: State, i: nat) returns (s2: State)
    requires Good(s) && i < |s.producers| && s.producers[i].PStart? && s.prodHead < s.consTail + Cap(s)
    ensures Good(s2)
    ensures s2 == s.(producers := s.producers[i := PClaim(s.producers[i].v, s.prodHead, s.consTail)])
  {
    Sound(s);
    GoodNext(s, Produce(i));
    s2 := Next(s, Produce(i));
    FindsRoom(s);
    GoodNext(s2, Produce(i));
    s2 := Next(s2, Produce(i));
  }

  lemma {:induction false} Fills(s: State, i: nat, n: nat) returns (s2: State)
    requires Good(s) && i < |s.producers| && s.producers[i] == PIdle
    requires s.prodTail == s.prodHead && s.prodHead + n <= s.consTail + Cap(s)
    ensures Good(s2)
    ensures s2 == s.(prodHead := s.prodHead + n, prodTail := s.prodTail + n, slots := s2.slots, log := s2.log)
  {
    s2 := s;
    if n > 0 {
      s2 := Fills(s, i, n - 1);
      s2 := Pushes(s2, i, n);
    }
  }

  // ----- popping, part by part -----

  lemma LoadsConsumerHead(s: State, j: nat) returns (s2: State)
    requires Good(s) && j < |s.consumers| && s.consumers[j] == CIdle
    ensures Good(s2) && s2 == s.(consumers := s.consumers[j := CLoaded(s.consHead)])
  {
    Sound(s);
    GoodNext(s, PopCall(j));
    s2 := s.(consumers := s.consumers[j := CStart]);
    GoodNext(s2, Consume(j));
    s2 := Next(s2, Consume(j));
  }

  lemma LoadsTail(s: State, j: nat) returns (s2: State)
    requires Good(s) && j < |s.consumers| && s.consumers[j] == CIdle && s.consHead < s.prodTail
    ensures Good(s2) && s2 == s.(consumers := s.consumers[j := CClaim(s.consHead, s.prodTail)])
  {
    Sound(s);
    GoodNext(s, PopCall(j));
    s2 := s.(consumers := s.consumers[j := CStart]);
    s2 := ReloadsTail(s2, j);
  }

  lemma FindsElement(s: State)
    requires Inv(s) && s.consHead < s.prodTail
    ensures Length(s.prodTail, s.consHead) != 0
  {
    CapBelowWrap(s);
    WrappedDistance(0, s.prodTail, s.consHead);
  }

  lemma ClaimsElement(s: State, j: nat) returns (s2: State)
    requires Good(s) && j < |s.consumers| && s.consumers[j].CClaim? && s.consumers[j].head == s.consHead
    ensures Good(s2)
    ensures s2 == s.(consHead := s.consHead + 1, consumers := s.consumers[j := CMove(s.consHead)])
  {
    Sound(s);
    FreshConsumerClaim(s, j);
    GoodNext(s, Consume(j));
    s2 := Next(s, Consume(j));
  }

  lemma MovesOut(s: State, j: nat) returns (s2: State)
    requires Good(s) && j < |s.consumers| && s.consumers[j].CMove?
    ensures Good(s2)
    ensures var t := s.consumers[j].ticket;
            && t < |s.log|
            && s2 == s.(got := s.got[t := s.log[t]], consumers := s.consumers[j := CDestroy(t, s.log[t])])
  {
    Sound(s);
    assert ConsumerOk(s, s.consumers[j]);
    IndexInRange(s.bits, s.consumers[j].ticket);
    GoodNext(s, Consume(j));
    s2 := Next(s, Consume(j));
  }

  lemma Destroys(s: State, j: nat) returns (s2: State)
    requires Good(s) && j < |s.consumers| && s.consumers[j].CDestroy?
    ensures Good(s2)
    ensures var t := s.consumers[j].ticket;
            s2 == s.(slots := s2.slots, consumers := s.consumers[j := CPublish(t, t, s.consumers[j].v)])
  {
    Sound(s);
    GoodNext(s, Consume(j));
    s2 := Next(s, Consume(j));
  }

  lemma Releases(s: State, j: nat) returns (s2: State)
    requires Good(s) && j < |s.consumers| && s.consumers[j].CPublish?
    requires s.consumers[j].ticket == s.consumers[j].expected == s.consTail
    ensures Good(s2)
    ensures s2 == s.(consTail := s.consTail + 1, consumers := s.consumers[j := CIdle])
  {
    Sound(s);
    GoodNext(s, Consume(j));
    s2 := Next(s, Consume(j));
  }

  lemma Pops(s: State, j: nat) returns (s2: State)
    requires Good(s) && j < |s.consumers| && s.consumers[j] == CIdle
    requires s.consTail == s.consHead < s.prodTail
    ensures Good(s2)
    ensures s.consTail < |s.log|
    ensures var t := s.consTail;
            s2 == s.(consHead := t + 1, consTail := t + 1, slots := s2.slots, got := s.got[t := s.log[t]])
  {
    s2 := LoadsTail(s, j);
    s2 := ClaimsElement(s2, j);
    s2 := MovesOut(s2, j);
    s2 := Destroys(s2, j);
    s2 := Releases(s2, j);
    assert s2.consumers == s.consumers;
  }

  // A pop that has lost the race for the head, left alone, takes the next element.
  lemma RetriesPop(s: State, j: nat) returns (s2: State)
    requires Good(s) && !s.sync.ST? && j < |s.consumers| && s.consumers[j].CClaim?
    requires s.consumers[j].head != s.consHead < s.consumers[j].head + WRAP
    requires s.consTail == s.consHead < s.prodTail
    ensures Good(s2) && s.consTail < |s.log|
    ensures var t := s.consTail;
            s2 == s.(consHead := t + 1, consTail := t + 1, slots := s2.slots, got := s.got[t := s.log[t]],
                     consumers := s.consumers[j := CIdle])
  {
    s2 := LosesElement(s, j);
    s2 := ReloadsTail(s2, j);
    s2 := ClaimsElement(s2, j);
    s2 := MovesOut(s2, j);
    s2 := Destroys(s2, j);
    s2 := Releases(s2, j);
  }

  lemma LosesElement(s: State, j: nat) returns (s2: State)
    requires Good(s) && !s.sync.ST? && j < |s.consumers| && s.consumers[j].CClaim?
    requires s.consumers[j].head != s.consHead < s.consumers[j].head + WRAP
    ensures Good(s2) && s2 == s.(consumers := s.consumers[j := CStart])
  {
    Sound(s);
    assert ConsumerOk(s, s.consumers[j]);
    SameWordExactly(s.consumers[j].head, s.consHead);
    GoodNext(s, Consume(j));
    s2 := Next(s, Consume(j));
  }

  lemma ReloadsTail(s: State, j: nat) returns (s2: State)
    requires Good(s) && j < |s.consumers| && s.consumers[j] == CStart && s.consHead < s.prodTail
    ensures Good(s2) && s2 == s.(consumers := s.consumers[j := CClaim(s.consHead, s.prodTail)])
  {
    Sound(s);
    GoodNext(s, Consume(j));
    s2 := Next(s, Consume(j));
    FindsElement(s);
    GoodNext(s2, Consume(j));
    s2 := Next(s2, Consume(j));
  }

  // n values go through an empty ring one by one.
  lemma {:induction false} GoThrough(s: State, i: nat, j: nat, n: nat) returns (s2: State)
    requires Good(s) && i < |s.producers| && s.producers[i] == PIdle && j < |s.consumers| && s.consumers[j] == CIdle
    requires s.prodHead == s.prodTail == s.consHead == s.consTail
    ensures Good(s2)
    ensures var t := s.prodHead + n;
            s2 == s.(prodHead := t, prodTail := t, consHead := t, consTail := t,
                     slots := s2.slots, log := s2.log, got := s2.got)
  {
    s2 := s;
    if n > 0 {
      s2 := GoThrough(s, i, j, n - 1);
      Sound(s2);
      CapBelowWrap(s2);
      s2 := Pushes(s2, i, n);
      s2 := Pops(s2, j);
    }
  }

  // ----- the compare-exchange on the tail as it is written -----

  // The first producer has claimed ticket 0; the second has claimed and written ticket 1, and its
  // compare-exchange on the tail has failed and left 0 as its expected value.
  ghost predicate ProducersRacing(s: State) {
    && Good(s) && s.sync == MT && |s.producers| > 1
    && s.prodTail == 0 && s.prodHead == 2 && s.producers[0] == PWrite(0, 10) && s.producers[1] == PPublish(1, 0)
    && s.consHead == s.consTail == 0 && forall j :: 0 <= j < |s.consumers| ==> s.consumers[j] == CIdle
  }

  lemma ProducersRace(bits: nat, p: nat, c: nat) returns (s: State)
    requires 1 <= bits <= 31 && p > 1
    ensures ProducersRacing(s) && Shaped(s, MT, bits, p, c)
  {
    s := BothClaim(bits, p, c);
    s := Writes(s, 1);
    Sound(s);
    GoodNext(s, Produce(1));
    s := Next(s, Produce(1));
  }

  lemma BothClaim(bits: nat, p: nat, c: nat) returns (s: State)
    requires 1 <= bits <= 31 && p > 1
    ensures Good(s) && Shaped(s, MT, bits, p, c)
    ensures s.producers[0] == PWrite(0, 10) && s.producers[1] == PWrite(1, 20)
    ensures s.prodHead == 2 && s.prodTail == s.consHead == s.consTail == 0 && s.consumers == Start(MT, bits, p, c).consumers
  {
    Starts(MT, bits, p, c);
    s := Start(MT, bits, p, c);
    Pow2Monotone(1, bits);
    assert Pow2(1) == 2;
    s := Loads(s, 0, 10);
    s := Claims(s, 0);
    s := Loads(s, 1, 20);
    s := Claims(s, 1);
  }

  // Its retry then publishes both tickets, the first one's slot being still raw, and the next pop
  // reads that slot.
  lemma PublishingOutOfTurnReadsRawSlot(bits: nat, p: nat, c: nat) returns (s: State)
    requires 1 <= bits <= 31 && p > 1 && c > 0
    ensures Reached(s) && Shaped(s, MT, bits, p, c) && s.fault
  {
    var s1 := ProducersRace(bits, p, c);
    Sound(s1);
    assert ProducerOk(s1, s1.producers[0]);
    ReachNext(s1, Produce(1));
    s := Next(s1, Produce(1));
    s := TakesFirst(s);
    IndexInRange(bits, 0);
    assert At(s, 0) == Raw;
    ReachNext(s, Consume(0));
    s := Next(s, Consume(0));
  }

  lemma TakesFirst(s: State) returns (s2: State)
    requires Reached(s) && |s.slots| == Cap(s) && |s.consumers| > 0 && s.consumers[0] == CIdle
    requires s.consHead == 0 && s.prodTail == 2
    ensures Reached(s2) && s2 == s.(consHead := 1, consumers := s.consumers[0 := CMove(0)])
  {
    var cs := s.consumers;
    ReachNext(s, PopCall(0));
    s2 := s.(consumers := cs[0 := CStart]);
    ReachNext(s2, Consume(0));
    s2 := s.(consumers := cs[0 := CLoaded(0)]);
    assert Next(s.(consumers := cs[0 := CStart]), Consume(0)) == s2;
    WrappedDistance(0, 2, 0);
    ReachNext(s2, Consume(0));
    s2 := s.(consumers := cs[0 := CClaim(0, 2)]);
    ReachNext(s2, Consume(0));
    s2 := Next(s2, Consume(0));
  }

  // The same with two consumers on a full ring: the second has destroyed its element and its
  // compare-exchange has left the first one's ticket as its expected value.
  ghost predicate ConsumersRacing(s: State) {
    && Good(s) && s.sync == MT && |s.consumers| > 1 && |s.producers| > 0
    && s.consTail == 0 && s.consumers[0] == CMove(0)
    && s.consumers[1].CPublish? && s.consumers[1].ticket == 1 && s.consumers[1].expected == 0
    && s.prodHead == Cap(s) >= 2 && s.producers[0] == PIdle
  }

  lemma ConsumersRace(bits: nat, p: nat, c: nat) returns (s: State)
    requires 1 <= bits <= 31 && p > 0 && c > 1
    ensures ConsumersRacing(s) && Shaped(s, MT, bits, p, c)
  {
    s := BothTake(bits, p, c);
    s := MovesOut(s, 1);
    s := Destroys(s, 1);
    Sound(s);
    GoodNext(s, Consume(1));
    s := Next(s, Consume(1));
  }

  lemma BothTake(bits: nat, p: nat, c: nat) returns (s: State)
    requires 1 <= bits <= 31 && p > 0 && c > 1
    ensures Good(s) && Shaped(s, MT, bits, p, c)
    ensures s.consTail == 0 && s.consumers[0] == CMove(0) && s.consumers[1] == CMove(1)
    ensures s.prodHead == Cap(s) >= 2 && s.producers[0] == PIdle
  {
    s := Filled(bits, p, c);
    s := LoadsTail(s, 0);
    s := ClaimsElement(s, 0);
    s := LoadsTail(s, 1);
    s := ClaimsElement(s, 1);
  }

  lemma Filled(bits: nat, p: nat, c: nat) returns (s: State)
    requires 1 <= bits <= 31 && p > 0
    ensures Good(s) && Shaped(s, MT, bits, p, c)
    ensures s.prodHead == s.prodTail == Cap(s) >= 2 && s.consHead == s.consTail == 0
    ensures s.producers[0] == PIdle && s.consumers == Start(MT, bits, p, c).consumers
  {
    Starts(MT, bits, p, c);
    s := Start(MT, bits, p, c);
    Pow2Monotone(1, bits);
    assert Pow2(1) == 2;
    s := Fills(s, 0, Cap(s));
  }

  // Its retry then releases both tickets, the first one's element being still in its slot, and
  // the next push constructs over that element.
  lemma ReleasingOutOfTurnOverwrites(bits: nat, p: nat, c: nat) returns (s: State)
    requires 1 <= bits <= 31 && p > 0 && c > 1
    ensures Reached(s) && Shaped(s, MT, bits, p, c) && s.fault
  {
    var s1 := ConsumersRace(bits, p, c);
    Sound(s1);
    assert ConsumerOk(s1, s1.consumers[0]);
    CapBelowWrap(s1);
    ReachNext(s1, Consume(1));
    s := Next(s1, Consume(1));
    s := TakesOver(s);
    IndexInRange(bits, 0);
    IndexRepeats(bits, 0);
    assert At(s, 0).Full?;
    ReachNext(s, Produce(0));
    s := Next(s, Produce(0));
  }

  lemma TakesOver(s: State) returns (s2: State)
    requires Reached(s) && |s.slots| == Cap(s) < WRAP && |s.producers| > 0 && s.producers[0] == PIdle
    requires s.prodHead == Cap(s) && s.consTail == 2
    ensures Reached(s2)
    ensures s2 == s.(prodHead := Cap(s) + 1, producers := s.producers[0 := PWrite(Cap(s), 7)], log := s.log + [7])
  {
    var ps := s.producers;
    ReachNext(s, PushCall(0, 7));
    s2 := s.(producers := ps[0 := PStart(7)]);
    ReachNext(s2, Produce(0));
    s2 := s.(producers := ps[0 := PLoaded(7, Cap(s))]);
    assert Next(s.(producers := ps[0 := PStart(7)]), Produce(0)) == s2;
    WrappedDistance(Cap(s), 2, Cap(s));
    ReachNext(s2, Produce(0));
    s2 := s.(producers := ps[0 := PClaim(7, Cap(s), 2)]);
    ReachNext(s2, Produce(0));
    s2 := Next(s2, Produce(0));
  }

  // ----- 2^32 claims between a thread's loads and its compare-exchange -----

  // The first producer has loaded head and tail as 0; 2^32 claims later the ring is full.
  lemma ProducerLapped(sync: Sync, bits: nat, p: nat, c: nat) returns (s: State)
    requires bits <= 31 && p > 1 && c > 0
    ensures Good(s) && Shaped(s, sync, bits, p, c)
    ensures s.producers[0] == PClaim(7, 0, 0) && s.prodHead == WRAP == s.consTail + Cap(s)
    ensures s.prodTail == s.prodHead && s.consHead == s.consTail
  {
    Starts(sync, bits, p, c);
    s := Start(sync, bits, p, c);
    CapBelowWrap(s);
    s := Loads(s, 0, 7);
    s := GoThrough(s, 1, 0, WRAP - Cap(s));
    s := Fills(s, 1, Cap(s));
  }

  // The 32-bit head is back at the loaded value, the compare-exchange succeeds although the tail
  // is published in order, and the producer constructs over a live element.
  lemma LappedClaimOverwrites(sync: Sync, bits: nat, p: nat, c: nat) returns (s: State)
    requires !sync.ST? && bits <= 31 && p > 1 && c > 0
    ensures Reached(s) && Shaped(s, sync, bits, p, c) && s.fault
  {
    var s1 := ProducerLapped(sync, bits, p, c);
    Sound(s1);
    var t: nat := WRAP - Cap(s1);
    IndexRepeats(bits, t);
    IndexInRange(bits, WRAP);
    assert At(s1, t).Full?;
    ReachNext(s1, Produce(0));
    s := Next(s1, Produce(0));
    assert s.producers[0] == PWrite(WRAP, 7) && s.slots == s1.slots;
    ReachNext(s, Produce(0));
    s := Next(s, Produce(0));
  }

  // The first consumer has loaded head as 0 and seen one element; 2^32 claims later the ring is
  // empty.
  lemma ConsumerLapped(sync: Sync, bits: nat, p: nat, c: nat) returns (s: State)
    requires bits <= 31 && p > 0 && c > 1
    ensures Good(s) && Shaped(s, sync, bits, p, c)
    ensures s.consumers[0] == CClaim(0, 1)
    ensures s.prodHead == s.prodTail == s.consHead == s.consTail == WRAP
  {
    Starts(sync, bits, p, c);
    s := Start(sync, bits, p, c);
    CapBelowWrap(s);
    s := Pushes(s, 0, 7);
    s := LoadsTail(s, 0);
    s := Pops(s, 1);
    s := GoThrough(s, 0, 1, WRAP - 1);
  }

  lemma LappedClaimReadsRawSlot(sync: Sync, bits: nat, p: nat, c: nat) returns (s: State)
    requires !sync.ST? && bits <= 31 && p > 0 && c > 1
    ensures Reached(s) && Shaped(s, sync, bits, p, c) && s.fault
  {
    var s1 := ConsumerLapped(sync, bits, p, c);
    Sound(s1);
    CapBelowWrap(s1);
    IndexInRange(bits, WRAP);
    assert At(s1, WRAP) == Raw;
    ReachNext(s1, Consume(0));
    s := Next(s1, Consume(0));
    assert s.consumers[0] == CMove(WRAP) && s.slots == s1.slots;
    ReachNext(s, Consume(0));
    s := Next(s, Consume(0));
  }

  // ----- the stores of the ST branch, with more threads than it is meant for -----

  lemma TwoSingleProducers(bits: nat, p: nat, c: nat) returns (s: State)
    requires bits <= 31 && p > 1
    ensures Wrong(s) && Shaped(s, ST, bits, p, c)
  {
    Starts(ST, bits, p, c);
    s := Start(ST, bits, p, c);
    Pow2Positive(bits);
    s := Loads(s, 0, 10);
    s := Loads(s, 1, 20);
    s := Claims(s, 0);
    Sound(s);
    GoesWrong(s, Produce(1));
    s := Next(s, Produce(1));
  }

  lemma TwoSingleConsumers(bits: nat, p: nat, c: nat) returns (s: State)
    requires bits <= 31 && p > 0 && c > 1
    ensures Wrong(s) && Shaped(s, ST, bits, p, c)
  {
    Starts(ST, bits, p, c);
    s := Start(ST, bits, p, c);
    Pow2Positive(bits);
    s := Pushes(s, 0, 7);
    s := LoadsTail(s, 0);
    s := LoadsTail(s, 1);
    s := ClaimsElement(s, 0);
    Sound(s);
    GoesWrong(s, Consume(1));
    s := Next(s, Consume(1));
  }
}
