// The blocking queue with one mutex for producers and one for consumers. Everything done to the
// producers' queue happens under the producers' mutex and is one step here; a pop holds the
// consumers' mutex over several steps, and pushes run in between them.
module TwoLockQueue {

  // A pop holds the consumers' mutex from Check to Take. `upTo` is how many values had been
  // pushed when its swap_queue call found nothing; Take carries it when non-blocking mode ended
  // the wait.
  datatype PopPc =
    | Idle
    | Enter
    | Check
    | Swap
    | Nonblock(upTo: nat)
    | Wait
    | Asleep
    | Take(gaveUp: bool, upTo: nat)
    | Got(v: int)
    | Nothing(upTo: nat)

  datatype State = State(
    producerQueue: seq<int>,
    consumerQueue: seq<int>,
    nonblock: bool,
    busy: bool,              // the consumers' mutex
    poppers: seq<PopPc>,
    pushed: seq<int>,        // in the order of the producers' mutex
    popped: seq<int>)        // in the order of the consumers' mutex

  datatype Action = Push(v: int) | Cancel | Pop(j: nat) | Wake(j: nat)

  predicate Holds(pc: PopPc) {
    pc.Check? || pc.Swap? || pc.Nonblock? || pc.Wait? || pc.Take?
  }

  predicate Enabled(s: State, a: Action) {
    match a
    case Pop(j) =>
      j < |s.poppers| && !s.poppers[j].Asleep? && (s.poppers[j].Enter? ==> !s.busy)
    case Wake(j) => j < |s.poppers| && s.poppers[j].Asleep?
    case _ => true
  }

  function PopNext(s: State, j: nat): State
    requires Enabled(s, Pop(j))
  {
    var ps := s.poppers;
    match ps[j]
    case Enter => s.(poppers := ps[j := Check], busy := true)
    case Check => s.(poppers := ps[j := if s.consumerQueue != [] then Take(false, 0) else Swap])
    case Swap =>
      s.(producerQueue := s.consumerQueue, consumerQueue := s.producerQueue,
         poppers := ps[j := if s.producerQueue != [] then Take(false, 0) else Nonblock(|s.pushed|)])
    case Nonblock(n) => s.(poppers := ps[j := if s.nonblock then Take(true, n) else Wait])
    case Wait => s.(poppers := ps[j := Asleep], busy := false)
    case Take(_, n) =>
      if s.consumerQueue == [] then s.(poppers := ps[j := Nothing(n)], busy := false)
      else s.(poppers := ps[j := Got(s.consumerQueue[0])], busy := false,
              consumerQueue := s.consumerQueue[1..], popped := s.popped + [s.consumerQueue[0]])
    case _ => s.(poppers := ps[j := Enter])
  }

  function Next(s: State, a: Action): State
    requires Enabled(s, a)
  {
    match a
    case Push(v) => s.(producerQueue := s.producerQueue + [v], pushed := s.pushed + [v])
    case Cancel => s.(nonblock := true)
    case Pop(j) => PopNext(s, j)
    case Wake(j) => s.(poppers := s.poppers[j := Enter])
  }

  ghost predicate Init(s: State) {
    && s.producerQueue == s.consumerQueue == s.pushed == s.popped == [] && !s.busy
    && forall j :: 0 <= j < |s.poppers| ==> s.poppers[j] == Idle
  }

  ghost predicate Run(run: seq<State>, acts: seq<Action>) {
    |run| == |acts| + 1 && Init(run[0]) && forall k :: 0 <= k < |acts| ==> StepAt(run, acts, k)
  }

  ghost predicate StepAt(run: seq<State>, acts: seq<Action>, k: nat)
    requires k < |acts| && |run| == |acts| + 1
  {
    Enabled(run[k], acts[k]) && run[k + 1] == Next(run[k], acts[k])
  }

  ghost predicate Inv(s: State) {
    && s.pushed == s.popped + s.consumerQueue + s.producerQueue
    && (forall i, j :: 0 <= i < j < |s.poppers| && Holds(s.poppers[i]) ==> !Holds(s.poppers[j]))
    && (forall j :: 0 <= j < |s.poppers| && Holds(s.poppers[j]) ==> s.busy)
    && (forall j :: 0 <= j < |s.poppers| ==>
          match s.poppers[j]
          case Swap => s.consumerQueue == []
          case Nonblock(n) => s.consumerQueue == [] && |s.popped| == n
          case Wait => s.consumerQueue == []
          case Take(gaveUp, n) =>
            if gaveUp then s.nonblock && s.consumerQueue == [] && |s.popped| == n else s.consumerQueue != []
          case Nothing(n) => s.nonblock && n <= |s.popped|
          case _ => true)
  }

  lemma StepKeepsInv(s: State, a: Action)
    requires Enabled(s, a) && Inv(s)
    ensures Inv(Next(s, a))
  {
    match a
    case Push(v) =>
      assert s.popped + s.consumerQueue + s.producerQueue + [v] == s.popped + s.consumerQueue + (s.producerQueue + [v]);
    case Pop(j) => PopKeepsInv(s, j);
    case _ =>
  }

  lemma PopKeepsInv(s: State, j: nat)
    requires Enabled(s, Pop(j)) && Inv(s)
    ensures Inv(PopNext(s, j))
  {
    PopKeepsOrder(s, j);
    if s.poppers[j].Take? {
      assert forall i :: 0 <= i < |s.poppers| && i != j ==> !Holds(s.poppers[i]);
    }
  }

  lemma PopKeepsOrder(s: State, j: nat)
    requires Enabled(s, Pop(j)) && Inv(s)
    ensures var s2 := PopNext(s, j); s2.pushed == s2.popped + s2.consumerQueue + s2.producerQueue
  {
    match s.poppers[j]
    case Take(_, _) =>
      if s.consumerQueue != [] {
        assert s.popped + s.consumerQueue == s.popped + [s.consumerQueue[0]] + s.consumerQueue[1..];
      }
    case Swap => assert s.popped + [] + s.producerQueue == s.popped + s.producerQueue + [];
    case _ =>
  }

  lemma {:induction false} EveryRunKeepsInv(run: seq<State>, acts: seq<Action>, k: nat)
    requires Run(run, acts) && k < |run|
    ensures Inv(run[k])
  {
    if k > 0 {
      EveryRunKeepsInv(run, acts, k - 1);
      assert StepAt(run, acts, k - 1);
      StepKeepsInv(run[k - 1], acts[k - 1]);
    }
  }

  // The two queues are one FIFO: whatever the interleaving of pushes with a pop's steps, values
  // come out in the order they went in, none lost and none twice, and the swap only ever meets
  // an empty consumers' queue.
  lemma RunsAreFifo(run: seq<State>, acts: seq<Action>, k: nat)
    requires Run(run, acts) && k < |run|
    ensures var s := run[k];
            && s.popped <= s.pushed
            && s.consumerQueue + s.producerQueue == s.pushed[|s.popped|..]
            && (forall j :: 0 <= j < |s.poppers| && s.poppers[j] == Swap ==> s.consumerQueue == [])
  {
    EveryRunKeepsInv(run, acts, k);
    var s := run[k];
    assert s.popped + s.consumerQueue + s.producerQueue == s.popped + (s.consumerQueue + s.producerQueue);
  }

  // The values of the push calls among some actions.
  function PushCalls(acts: seq<Action>): seq<int> {
    if acts == [] then []
    else
      var last := acts[|acts| - 1];
      PushCalls(acts[..|acts| - 1]) + if last.Push? then [last.v] else []
  }

  // The history is that of the calls: every push call adds its value once, nothing else adds
  // any, and the queue is in non-blocking mode from the first cancel on.
  lemma {:induction false} HistoryIsTheCalls(run: seq<State>, acts: seq<Action>, k: nat)
    requires Run(run, acts) && k < |run|
    ensures run[k].pushed == PushCalls(acts[..k])
    ensures run[k].nonblock <==> run[0].nonblock || Cancel in acts[..k]
  {
    if k > 0 {
      HistoryIsTheCalls(run, acts, k - 1);
      assert StepAt(run, acts, k - 1);
      assert acts[..k] == acts[..k - 1] + [acts[k - 1]];
    }
  }

  // The value a pop returns is the one pushed in the place where the earlier pops had got to, and
  // it returns one exactly when it has not given up.
  lemma PopReturnsNextPushed(run: seq<State>, acts: seq<Action>, k: nat, j: nat)
    requires Run(run, acts) && k < |acts| && acts[k] == Pop(j)
    requires j < |run[k].poppers| && run[k].poppers[j].Take?
    ensures j < |run[k + 1].poppers|
    ensures var s, s2 := run[k], run[k + 1]; var n := |s.popped|;
            if s.poppers[j].gaveUp then s2.poppers[j].Nothing? && s2.popped == s.popped
            else n < |s2.pushed| && s2.poppers[j] == Got(s2.pushed[n]) && s2.popped == s2.pushed[..n + 1]
  {
    EveryRunKeepsInv(run, acts, k);
    EveryRunKeepsInv(run, acts, k + 1);
    assert StepAt(run, acts, k);
    var s, s2 := run[k], run[k + 1];
    if !s.poppers[j].gaveUp {
      assert s2.popped[|s.popped|] == s2.pushed[|s.popped|];
    }
  }

  // A pop on its way to returning false, and how much had been pushed at its swap_queue call.
  predicate GivingUp(pc: PopPc) {
    pc.Nonblock? || pc.Nothing? || (pc.Take? && pc.gaveUp)
  }

  lemma GiveUpStarts(s: State, a: Action, j: nat)
    requires Enabled(s, a) && Inv(s) && Inv(Next(s, a)) && j < |s.poppers| && GivingUp(Next(s, a).poppers[j])
    ensures var s2 := Next(s, a);
            if a == Pop(j) && s.poppers[j] == Swap then
              s2.popped == s2.pushed && |s2.pushed| == s2.poppers[j].upTo
            else GivingUp(s.poppers[j]) && s.poppers[j].upTo == s2.poppers[j].upTo
  {
  }

  // pop returns false only in non-blocking mode, and only when its own swap_queue call, at an
  // earlier state of the same call, left everything pushed so far popped.
  lemma {:induction false} FalseOnlyWhenEmpty(run: seq<State>, acts: seq<Action>, k: nat, j: nat)
    returns (m: nat)
    requires Run(run, acts) && k < |run| && j < |run[k].poppers| && GivingUp(run[k].poppers[j])
    ensures m < k && acts[m] == Pop(j) && j < |run[m].poppers| && run[m].poppers[j] == Swap
    ensures run[m + 1].popped == run[m + 1].pushed && |run[m + 1].pushed| == run[k].poppers[j].upTo
    ensures forall t :: m < t <= k ==> j < |run[t].poppers| && GivingUp(run[t].poppers[j])
    ensures run[k].poppers[j].Nothing? ==> run[k].nonblock
  {
    EveryRunKeepsInv(run, acts, k);
    assert k > 0;
    EveryRunKeepsInv(run, acts, k - 1);
    assert StepAt(run, acts, k - 1);
    GiveUpStarts(run[k - 1], acts[k - 1], j);
    if acts[k - 1] == Pop(j) && run[k - 1].poppers[j] == Swap {
      m := k - 1;
    } else {
      m := FalseOnlyWhenEmpty(run, acts, k - 1, j);
    }
  }

  // ----- a pop by itself -----

  predicate InCall(pc: PopPc) { !pc.Idle? && !pc.Got? && !pc.Nothing? }

  // A call of pop comes to an end only by returning a value or false.
  lemma CallsEndWithResult(run: seq<State>, acts: seq<Action>, k: nat, j: nat)
    requires Run(run, acts) && k < |acts| && j < |run[k].poppers| && InCall(run[k].poppers[j])
    ensures j < |run[k + 1].poppers|
    ensures !InCall(run[k + 1].poppers[j]) ==> !run[k + 1].poppers[j].Idle? && acts[k] == Pop(j) && run[k].poppers[j].Take?
  {
    assert StepAt(run, acts, k);
  }

  // At most n steps of pop j with no other thread in between, up to its return or its sleep.
  function Alone(s: State, j: nat, n: nat): (s2: State)
    requires j < |s.poppers|
    ensures |s2.poppers| == |s.poppers|
    decreases n
  {
    if n == 0 || !InCall(s.poppers[j]) || !Enabled(s, Pop(j)) then s
    else Alone(PopNext(s, j), j, n - 1)
  }

  // What a pop does when nobody interferes: it returns the oldest value there is; when there is
  // none it returns false in non-blocking mode and goes to sleep otherwise.
  lemma PopAlone(s: State, j: nat)
    requires Inv(s) && j < |s.poppers| && s.poppers[j] == Enter && !s.busy
    ensures var s2 := Alone(s, j, 5);
            && s2.pushed == s.pushed && !s2.busy && s2.poppers == s.poppers[j := s2.poppers[j]]
            && if |s.popped| < |s.pushed| then
                 s2.poppers[j] == Got(s.pushed[|s.popped|]) && s2.popped == s.pushed[..|s.popped| + 1]
               else
                 && s2.popped == s.popped
                 && if s.nonblock then s2.poppers[j] == Nothing(|s.pushed|) else s2.poppers[j] == Asleep
  {
    var s1 := PopNext(s, j);
    var s2 := PopNext(s1, j);
    StepKeepsInv(s, Pop(j));
    StepKeepsInv(s1, Pop(j));
    if s2.poppers[j].Take? {
      TakesOldest(s2, j, 3);
    } else {
      var s3 := PopNext(s2, j);
      StepKeepsInv(s2, Pop(j));
      if s3.poppers[j].Take? {
        TakesOldest(s3, j, 2);
      } else {
        var s4 := PopNext(s3, j);
        StepKeepsInv(s3, Pop(j));
        assert Alone(s4, j, 1) == PopNext(s4, j);
        assert Alone(s3, j, 2) == Alone(s4, j, 1);
        assert Alone(s2, j, 3) == Alone(s3, j, 2);
      }
    }
  }

  lemma TakesOldest(s: State, j: nat, n: nat)
    requires Inv(s) && j < |s.poppers| && s.poppers[j].Take? && !s.poppers[j].gaveUp && n > 0
    ensures Alone(s, j, n) == PopNext(s, j)
    ensures var s2 := PopNext(s, j);
            && |s.popped| < |s.pushed| && s2.poppers == s.poppers[j := Got(s.pushed[|s.popped|])]
            && s2.popped == s.pushed[..|s.popped| + 1] && s2.pushed == s.pushed && !s2.busy
  {
  }
}
