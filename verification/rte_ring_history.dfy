// The ring's runs told by their calls alone: what is claimed, published and returned is what the
// calls of push passed, once each and in order.
module RteRingHistory {
  import opened Options
  import opened RteRing
  import opened RteRingProofs

  // The value of the last push call of producer i among the first k actions.
  function Calling(acts: seq<Action>, i: nat, k: nat): Option<int>
    requires k <= |acts|
  {
    if k == 0 then None
    else if acts[k - 1].PushCall? && acts[k - 1].i == i then Some(acts[k - 1].v)
    else Calling(acts, i, k - 1)
  }

  function Value(o: Option<int>): seq<int> {
    if o.Some? then [o.value] else []
  }

  // The value a push has with it until it is written.
  function Carried(pc: ProducerPc): Option<int> {
    match pc
    case PStart(v) => Some(v)
    case PLoaded(v, _) => Some(v)
    case PClaim(v, _, _) => Some(v)
    case PWrite(_, v) => Some(v)
    case _ => None
  }

  // ----- what happens between two states of a run -----

  // Producer i's compare-exchange (or store) on the head goes through.
  predicate ClaimsNow(s: State, s2: State, i: nat) {
    i < |s.producers| && i < |s2.producers| && s.producers[i].PClaim? && s2.producers[i].PWrite?
  }

  predicate ReturnsTrue(s: State, s2: State, i: nat) {
    i < |s.producers| && i < |s2.producers| && s.producers[i].PPublish? && s2.producers[i].PIdle?
  }

  // Consumer j claims an element, and returns with the one it has moved out.
  predicate TakesNow(s: State, s2: State, j: nat) {
    j < |s.consumers| && j < |s2.consumers| && s.consumers[j].CClaim? && s2.consumers[j].CMove?
  }

  predicate ReturnsElement(s: State, s2: State, j: nat) {
    j < |s.consumers| && j < |s2.consumers| && s.consumers[j].CPublish? && s2.consumers[j].CIdle?
  }

  // The values of the push calls in the order of their claims, and of their returns.
  function Claimed(run: seq<State>, acts: seq<Action>, k: nat): seq<int>
    requires k <= |acts| < |run|
  {
    if k == 0 then []
    else
      Claimed(run, acts, k - 1) +
      if acts[k - 1].Produce? && ClaimsNow(run[k - 1], run[k], acts[k - 1].i) then Value(Calling(acts, acts[k - 1].i, k))
      else []
  }

  function Pushed(run: seq<State>, acts: seq<Action>, k: nat): seq<int>
    requires k <= |acts| < |run|
  {
    if k == 0 then []
    else
      Pushed(run, acts, k - 1) +
      if acts[k - 1].Produce? && ReturnsTrue(run[k - 1], run[k], acts[k - 1].i) then Value(Calling(acts, acts[k - 1].i, k))
      else []
  }

  // The values that pops have returned, in the order of their returns.
  function Popped(run: seq<State>, acts: seq<Action>, k: nat): seq<int>
    requires k <= |acts| < |run|
  {
    if k == 0 then []
    else
      Popped(run, acts, k - 1) +
      if acts[k - 1].Consume? && ReturnsElement(run[k - 1], run[k], acts[k - 1].j)
      then [run[k - 1].consumers[acts[k - 1].j].v]
      else []
  }

  // ----- a push works on the value of its call -----

  lemma CarriedStep(s: State, a: Action, i: nat)
    requires Enabled(s, a) && i < |s.producers|
    ensures i < |Next(s, a).producers|
    ensures a.PushCall? && a.i == i ==> Next(s, a).producers[i] == PStart(a.v)
    ensures !(a.PushCall? && a.i == i) && Carried(Next(s, a).producers[i]).Some? ==>
              Carried(Next(s, a).producers[i]) == Carried(s.producers[i])
  {
    match a
    case Produce(k) => ProducerKeepsShape(s, k);
    case Consume(j) => ConsumerKeepsShape(s, j);
    case _ =>
  }

  // However often its exchange fails, a push goes on with the value it was called with.
  lemma {:induction false} CarriesItsCall(run: seq<State>, acts: seq<Action>, k: nat, i: nat)
    requires Run(run, acts) && k < |run| && i < |run[k].producers|
    ensures Carried(run[k].producers[i]).Some? ==> Carried(run[k].producers[i]) == Calling(acts, i, k)
  {
    if k == 0 {
      AllIdle(run[0]);
    } else {
      assert StepAt(run, acts, k - 1);
      ShapeKept(run[k - 1], acts[k - 1]);
      CarriesItsCall(run, acts, k - 1, i);
      CarriedStep(run[k - 1], acts[k - 1], i);
    }
  }

  lemma LogStep(s: State, a: Action)
    requires Enabled(s, a)
    ensures var s2 := Next(s, a);
            s2.log == s.log + if a.Produce? && ClaimsNow(s, s2, a.i) then [s.producers[a.i].v] else []
  {
  }

  // The values claimed, ticket by ticket, are those of the push calls that claimed them.
  lemma {:induction false} LogIsTheCalls(run: seq<State>, acts: seq<Action>, k: nat)
    requires Run(run, acts) && k < |run|
    ensures run[k].log == Claimed(run, acts, k)
  {
    if k > 0 {
      LogIsTheCalls(run, acts, k - 1);
      assert StepAt(run, acts, k - 1);
      var s, a := run[k - 1], acts[k - 1];
      LogStep(s, a);
      if a.Produce? && ClaimsNow(s, run[k], a.i) {
        CarriesItsCall(run, acts, k - 1, a.i);
      }
    }
  }

  // ----- what was touched -----

  // The step constructs over a live element, or moves out of a raw slot or destroys one.
  predicate TouchesWrongly(s: State, a: Action) {
    |s.slots| == Cap(s) &&
    match a
    case Produce(i) =>
      i < |s.producers| && s.producers[i].PWrite? && At(s, s.producers[i].ticket).Full?
    case Consume(j) =>
      && j < |s.consumers| && (s.consumers[j].CMove? || s.consumers[j].CDestroy?)
      && At(s, s.consumers[j].ticket).Raw?
    case _ => false
  }

  lemma FaultStep(s: State, a: Action)
    requires Enabled(s, a)
    ensures Next(s, a).fault <==> s.fault || TouchesWrongly(s, a)
  {
  }

  // The flag is up exactly when some step so far has touched a slot wrongly.
  lemma {:induction false} FaultIsTheHistory(run: seq<State>, acts: seq<Action>, k: nat)
    requires Run(run, acts) && k < |run|
    ensures run[k].fault <==> exists m :: 0 <= m < k && TouchesWrongly(run[m], acts[m])
  {
    if k > 0 {
      FaultIsTheHistory(run, acts, k - 1);
      assert StepAt(run, acts, k - 1);
      FaultStep(run[k - 1], acts[k - 1]);
      if TouchesWrongly(run[k - 1], acts[k - 1]) {
        assert run[k].fault;
      }
    }
  }

  // The element that the step moves out, with its ticket.
  function MovedOut(s: State, a: Action): map<nat, int> {
    if a.Consume? && a.j < |s.consumers| && s.consumers[a.j].CMove? && |s.slots| == Cap(s) then
      var t := s.consumers[a.j].ticket;
      match At(s, t)
      case Full(v) => map[t := v]
      case Raw => map[]
    else map[]
  }

  function Moved(run: seq<State>, acts: seq<Action>, k: nat): map<nat, int>
    requires k <= |acts| < |run|
  {
    if k == 0 then map[] else Moved(run, acts, k - 1) + MovedOut(run[k - 1], acts[k - 1])
  }

  lemma MovedStep(s: State, a: Action)
    requires Enabled(s, a)
    ensures Next(s, a).got == s.got + MovedOut(s, a)
  {
  }

  lemma {:induction false} GotIsTheHistory(run: seq<State>, acts: seq<Action>, k: nat)
    requires Run(run, acts) && k < |run|
    ensures run[k].got == Moved(run, acts, k)
  {
    if k > 0 {
      GotIsTheHistory(run, acts, k - 1);
      assert StepAt(run, acts, k - 1);
      MovedStep(run[k - 1], acts[k - 1]);
    }
  }

  // ----- each call claims once, and how it ends -----

  // How often producer i has claimed since its last push call.
  function Claims(run: seq<State>, acts: seq<Action>, i: nat, k: nat): nat
    requires k <= |acts| < |run|
  {
    if k == 0 || (acts[k - 1].PushCall? && acts[k - 1].i == i) then 0
    else Claims(run, acts, i, k - 1) + if acts[k - 1] == Produce(i) && ClaimsNow(run[k - 1], run[k], i) then 1 else 0
  }

  // How often consumer j has claimed since its last pop call.
  function Takes(run: seq<State>, acts: seq<Action>, j: nat, k: nat): nat
    requires k <= |acts| < |run|
  {
    if k == 0 || acts[k - 1] == PopCall(j) then 0
    else Takes(run, acts, j, k - 1) + if acts[k - 1] == Consume(j) && TakesNow(run[k - 1], run[k], j) then 1 else 0
  }

  // How many claims a call has behind it, by where it stands.
  ghost predicate ClaimsFit(pc: ProducerPc, n: nat) {
    match pc
    case PIdle => n <= 1
    case PWrite(_, _) => n == 1
    case PPublish(_, _) => n == 1
    case _ => n == 0
  }

  ghost predicate TakesFit(pc: ConsumerPc, n: nat) {
    match pc
    case CIdle => n <= 1
    case CMove(_) => n == 1
    case CDestroy(_, _) => n == 1
    case CPublish(_, _, _) => n == 1
    case _ => n == 0
  }

  lemma ClaimsStep(s: State, a: Action, i: nat, n: nat)
    requires Enabled(s, a) && i < |s.producers| && ClaimsFit(s.producers[i], n)
    ensures var s2 := Next(s, a);
            i < |s2.producers| &&
            if a.PushCall? && a.i == i then ClaimsFit(s2.producers[i], 0)
            else ClaimsFit(s2.producers[i], n + if a == Produce(i) && ClaimsNow(s, s2, i) then 1 else 0)
  {
    match a
    case Produce(k) => ProducerKeepsShape(s, k);
    case Consume(j) => ConsumerKeepsShape(s, j);
    case _ =>
  }

  lemma {:induction false} ClaimsOnce(run: seq<State>, acts: seq<Action>, k: nat, i: nat)
    requires Run(run, acts) && k < |run| && i < |run[k].producers|
    ensures ClaimsFit(run[k].producers[i], Claims(run, acts, i, k))
  {
    if k == 0 {
      AllIdle(run[0]);
    } else {
      assert StepAt(run, acts, k - 1);
      ShapeKept(run[k - 1], acts[k - 1]);
      ClaimsOnce(run, acts, k - 1, i);
      ClaimsStep(run[k - 1], acts[k - 1], i, Claims(run, acts, i, k - 1));
    }
  }

  lemma TakesStep(s: State, a: Action, j: nat, n: nat)
    requires Enabled(s, a) && j < |s.consumers| && TakesFit(s.consumers[j], n)
    ensures var s2 := Next(s, a);
            j < |s2.consumers| &&
            if a == PopCall(j) then TakesFit(s2.consumers[j], 0)
            else TakesFit(s2.consumers[j], n + if a == Consume(j) && TakesNow(s, s2, j) then 1 else 0)
  {
    match a
    case Produce(i) => ProducerKeepsShape(s, i);
    case Consume(k) => ConsumerKeepsShape(s, k);
    case _ =>
  }

  lemma {:induction false} TakesOnce(run: seq<State>, acts: seq<Action>, k: nat, j: nat)
    requires Run(run, acts) && k < |run| && j < |run[k].consumers|
    ensures TakesFit(run[k].consumers[j], Takes(run, acts, j, k))
  {
    if k == 0 {
      AllIdle(run[0]);
    } else {
      assert StepAt(run, acts, k - 1);
      ShapeKept(run[k - 1], acts[k - 1]);
      TakesOnce(run, acts, k - 1, j);
      TakesStep(run[k - 1], acts[k - 1], j, Takes(run, acts, j, k - 1));
    }
  }

  lemma EndsStep(s: State, a: Action)
    requires Enabled(s, a)
    ensures var s2 := Next(s, a);
            && |s2.producers| == |s.producers| && |s2.consumers| == |s.consumers|
            && (forall i :: 0 <= i < |s.producers| && !s.producers[i].PIdle? && s2.producers[i].PIdle? ==>
                  a == Produce(i) && (s.producers[i].PLoaded? || s.producers[i].PPublish?))
            && (forall j :: 0 <= j < |s.consumers| && !s.consumers[j].CIdle? && s2.consumers[j].CIdle? ==>
                  a == Consume(j) && (s.consumers[j].CLoaded? || s.consumers[j].CPublish?))
  {
    match a
    case Produce(i) => ProducerKeepsShape(s, i);
    case Consume(j) => ConsumerKeepsShape(s, j);
    case _ =>
  }

  // A push returns at its test of the room, having claimed nothing, or at its publication, having
  // claimed one ticket; in particular a failed exchange never makes it give up.
  lemma PushReturns(run: seq<State>, acts: seq<Action>, k: nat, i: nat)
    requires Run(run, acts) && k < |acts| && i < |run[k].producers| && !run[k].producers[i].PIdle?
    ensures i < |run[k + 1].producers|
    ensures run[k + 1].producers[i].PIdle? ==>
              && acts[k] == Produce(i)
              && if ReturnsTrue(run[k], run[k + 1], i) then Claims(run, acts, i, k + 1) == 1
                 else run[k].producers[i].PLoaded? && Claims(run, acts, i, k + 1) == 0
  {
    assert StepAt(run, acts, k);
    ShapeKept(run[k], acts[k]);
    ClaimsOnce(run, acts, k, i);
    EndsStep(run[k], acts[k]);
  }

  lemma PopReturns(run: seq<State>, acts: seq<Action>, k: nat, j: nat)
    requires Run(run, acts) && k < |acts| && j < |run[k].consumers| && !run[k].consumers[j].CIdle?
    ensures j < |run[k + 1].consumers|
    ensures run[k + 1].consumers[j].CIdle? ==>
              && acts[k] == Consume(j)
              && if ReturnsElement(run[k], run[k + 1], j) then Takes(run, acts, j, k + 1) == 1
                 else run[k].consumers[j].CLoaded? && Takes(run, acts, j, k + 1) == 0
  {
    assert StepAt(run, acts, k);
    ShapeKept(run[k], acts[k]);
    TakesOnce(run, acts, k, j);
    EndsStep(run[k], acts[k]);
  }

  // ----- sound runs are first in, first out -----

  ghost predicate SoundUntil(run: seq<State>, k: nat)
    requires k < |run|
  {
    forall j {:trigger Inv(run[j])} :: 0 <= j <= k ==> Inv(run[j])
  }

  // A ticket that a push is about to publish is the one it had, for the same value.
  lemma TicketStep(s: State, a: Action, i: nat)
    requires Enabled(s, a) && Inv(s) && Inv(Next(s, a)) && i < |s.producers|
    ensures i < |Next(s, a).producers| && s.log <= Next(s, a).log
    ensures match Next(s, a).producers[i]
            case PWrite(t, v) => t < |Next(s, a).log| && Next(s, a).log[t] == v
            case PPublish(t, _) => t < |s.log| && PTicket(s.producers[i]) == Some(t) && !(a.PushCall? && a.i == i)
            case _ => true
  {
    LogStep(s, a);
    PublisherStep(s, a, i);
    assert ProducerOk(s, s.producers[i]) && ProducerOk(Next(s, a), Next(s, a).producers[i]);
  }

  lemma PublisherStep(s: State, a: Action, i: nat)
    requires Enabled(s, a) && i < |s.producers|
    ensures i < |Next(s, a).producers|
    ensures Next(s, a).producers[i].PPublish? ==>
              PTicket(s.producers[i]) == Some(Next(s, a).producers[i].ticket) && !(a.PushCall? && a.i == i)
  {
    match a
    case Produce(k) => ProducerKeepsShape(s, k);
    case Consume(j) => ConsumerKeepsShape(s, j);
    case _ =>
  }

  // In a sound run the ticket that a push holds stands for the value of its call.
  lemma {:induction false} TicketIsItsCall(run: seq<State>, acts: seq<Action>, k: nat, i: nat)
    requires Run(run, acts) && k < |run| && SoundUntil(run, k) && i < |run[k].producers|
    ensures match PTicket(run[k].producers[i])
            case Some(t) => t < |run[k].log| && Calling(acts, i, k) == Some(run[k].log[t])
            case None => true
  {
    if k == 0 {
      AllIdle(run[0]);
    } else {
      assert StepAt(run, acts, k - 1) && Inv(run[k - 1]) && Inv(run[k]);
      ShapeKept(run[k - 1], acts[k - 1]);
      TicketIsItsCall(run, acts, k - 1, i);
      TicketStep(run[k - 1], acts[k - 1], i);
      CarriesItsCall(run, acts, k, i);
    }
  }

  lemma PublishStep(s: State, a: Action)
    requires Enabled(s, a) && Inv(s) && Inv(Next(s, a))
    ensures var s2 := Next(s, a);
            if a.Produce? && ReturnsTrue(s, s2, a.i) then
              s2.prodTail == s.prodTail + 1 && PTicket(s.producers[a.i]) == Some(s.prodTail)
            else s2.prodTail == s.prodTail
    ensures s.log <= Next(s, a).log && s.prodTail <= |s.log|
    ensures a.Produce? && ReturnsTrue(s, Next(s, a), a.i) ==> s.prodTail < |s.log|
  {
    LogStep(s, a);
    KeepsExactlyInTurn(s, a);
  }

  lemma ReleaseStep(s: State, a: Action)
    requires Enabled(s, a) && Inv(s) && Inv(Next(s, a))
    ensures var s2 := Next(s, a);
            if a.Consume? && ReturnsElement(s, s2, a.j) then
              && s2.consTail == s.consTail + 1 && s.consTail < |s.log|
              && s.consumers[a.j].v == s.log[s.consTail]
            else s2.consTail == s.consTail
    ensures s.log <= Next(s, a).log && s.consTail <= |s.log|
  {
    LogStep(s, a);
    KeepsExactlyInTurn(s, a);
    if a.Consume? {
      assert ConsumerOk(s, s.consumers[a.j]);
    }
  }

  lemma OneMore(xs: seq<int>, ys: seq<int>, n: nat)
    requires xs <= ys && n < |xs|
    ensures ys[..n + 1] == xs[..n] + [xs[n]]
  {
  }

  lemma {:induction false} PushedIsPublished(run: seq<State>, acts: seq<Action>, k: nat)
    requires Run(run, acts) && k < |run| && SoundUntil(run, k)
    ensures run[k].prodTail <= |run[k].log| && Pushed(run, acts, k) == run[k].log[..run[k].prodTail]
  {
    if k > 0 {
      assert StepAt(run, acts, k - 1) && Inv(run[k - 1]) && Inv(run[k]);
      PushedIsPublished(run, acts, k - 1);
      var s, a, s2 := run[k - 1], acts[k - 1], run[k];
      PublishStep(s, a);
      if a.Produce? && ReturnsTrue(s, s2, a.i) {
        TicketIsItsCall(run, acts, k - 1, a.i);
        OneMore(s.log, s2.log, s.prodTail);
      } else {
        assert s2.log[..s.prodTail] == s.log[..s.prodTail];
      }
    }
  }

  lemma {:induction false} PoppedIsReleased(run: seq<State>, acts: seq<Action>, k: nat)
    requires Run(run, acts) && k < |run| && SoundUntil(run, k)
    ensures run[k].consTail <= |run[k].log| && Popped(run, acts, k) == run[k].log[..run[k].consTail]
  {
    if k > 0 {
      assert StepAt(run, acts, k - 1) && Inv(run[k - 1]) && Inv(run[k]);
      PoppedIsReleased(run, acts, k - 1);
      var s, a, s2 := run[k - 1], acts[k - 1], run[k];
      ReleaseStep(s, a);
      if a.Consume? && ReturnsElement(s, s2, a.j) {
        OneMore(s.log, s2.log, s.consTail);
      } else {
        assert s2.log[..s.consTail] == s.log[..s.consTail];
      }
    }
  }

  // In every sound run the values that pops have returned are the first of the values that
  // pushes were called with, in the order in which those pushes returned; the ring holds the
  // others, never more than its capacity.
  lemma RunsAreFifo(run: seq<State>, acts: seq<Action>, k: nat)
    requires Run(run, acts) && k < |run| && SoundUntil(run, k)
    ensures var pushed, popped := Pushed(run, acts, k), Popped(run, acts, k);
            && popped <= pushed && |pushed| <= |popped| + Pow2(run[k].bits)
            && run[k].consTail <= run[k].prodTail <= |run[k].log|
            && Contents(run[k]) == pushed[|popped|..]
  {
    assert Inv(run[k]);
    PushedIsPublished(run, acts, k);
    PoppedIsReleased(run, acts, k);
  }

  // With publication in order, any number of threads and nobody lapped, every run is such a run.
  lemma WaitingRunsAreFifo(run: seq<State>, acts: seq<Action>, k: nat)
    requires Run(run, acts) && k < |run| && run[0].sync == MTInOrder && run[0].bits <= 31
    requires forall j :: 0 <= j < k ==> NotLapped(run[j])
    ensures SoundUntil(run, k)
    ensures var pushed, popped := Pushed(run, acts, k), Popped(run, acts, k);
            popped <= pushed && |pushed| <= |popped| + Pow2(run[k].bits)
  {
    forall j | 0 <= j <= k ensures Inv(run[j]) {
      WaitingRunsAreSound(run, acts, j);
    }
    RunsAreFifo(run, acts, k);
  }

  // So is every run with one producer and at most one consumer, in any mode.
  lemma SoloRunsAreFifo(run: seq<State>, acts: seq<Action>, k: nat)
    requires Run(run, acts) && k < |run| && run[0].bits <= 31
    requires |run[0].producers| == 1 && |run[0].consumers| <= 1
    ensures SoundUntil(run, k)
    ensures var pushed, popped := Pushed(run, acts, k), Popped(run, acts, k);
            popped <= pushed && |pushed| <= |popped| + Pow2(run[k].bits)
  {
    forall j | 0 <= j <= k ensures Inv(run[j]) {
      SoloRunsAreSound(run, acts, j);
    }
    RunsAreFifo(run, acts, k);
  }
}
