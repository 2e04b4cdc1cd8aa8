// What every step of the thread pool keeps, and what follows for whole runs.
module ThreadPoolProofs {
  import opened Options
  import opened Sequences
  import opened ThreadPool

  // ----- counting threads -----

  function Count<T>(s: seq<T>, f: T -> bool): nat {
    if s == [] then 0 else (if f(s[0]) then 1 else 0) + Count(s[1..], f)
  }

  lemma {:induction false} CountUpdate<T>(s: seq<T>, f: T -> bool, i: nat, x: T)
    requires i < |s|
    ensures Count(s[i := x], f) + (if f(s[i]) then 1 else 0) == Count(s, f) + (if f(x) then 1 else 0)
  {
    if i == 0 {
      assert s[0 := x][1..] == s[1..];
    } else {
      assert s[i := x][1..] == s[1..][i - 1 := x];
      CountUpdate(s[1..], f, i - 1, x);
    }
  }

  lemma {:induction false} CountAppend<T>(s: seq<T>, f: T -> bool, x: T)
    ensures Count(s + [x], f) == Count(s, f) + (if f(x) then 1 else 0)
  {
    if s == [] {
      assert [x][1..] == [];
      assert s + [x] == [x];
    } else {
      assert (s + [x])[1..] == s[1..] + [x];
      CountAppend(s[1..], f, x);
    }
  }

  lemma {:induction false} CountZero<T>(s: seq<T>, f: T -> bool)
    requires forall x :: x in s ==> !f(x)
    ensures Count(s, f) == 0
  {
    if s != [] {
      assert s[0] in s;
      CountZero(s[1..], f);
    }
  }

  // ----- the mutex -----

  ghost predicate Mutex(s: State) {
    && (forall i :: 0 <= i < |s.workers| ==> (WorkerHolds(s.workers[i]) <==> s.owner == Worker(i)))
    && (forall c :: 0 <= c < |s.callers| ==> (CallerHolds(s.callers[c]) <==> s.owner == Caller(c)))
    && (StopHolds(s.stop) <==> s.owner == Stopper)
    && (s.owner.Worker? ==> s.owner.i < |s.workers|)
    && (s.owner.Caller? ==> s.owner.c < |s.callers|)
  }

  // What a thread that holds the mutex, or has left it, may rely on.
  ghost predicate Decided(s: State) {
    && |s.tasks| <= s.maxSize
    && (s.running <==> s.stop == NotStopped)
    && (forall i :: 0 <= i < |s.workers| ==>
          match s.workers[i]
          case TaskWait => s.tasks == []
          case TaskTake => s.tasks != [] || !s.running
          case Exited => !s.running
          case _ => true)
    && (forall c :: 0 <= c < |s.callers| ==>
          match s.callers[c]
          case RoomWait => |s.tasks| == s.maxSize
          case RoomReady => |s.tasks| < s.maxSize || !s.running
          case RoomPush => |s.tasks| < s.maxSize
          case _ => true)
  }

  lemma MutexKept(s: State, a: Action)
    requires Enabled(s, a) && Mutex(s)
    ensures Mutex(Next(s, a))
  {
    match a
    case WorkerStep(i, wakes) => MutexKeptByWorker(s, i, wakes);
    case CallerStep(c, wakes) => MutexKeptByCaller(s, c, wakes);
    case _ =>
  }

  lemma MutexKeptByWorker(s: State, i: nat, wakes: Option<nat>)
    requires Enabled(s, WorkerStep(i, wakes)) && Mutex(s)
    ensures Mutex(WorkerNext(s, i, wakes))
  {
  }

  lemma MutexKeptByCaller(s: State, c: nat, wakes: Option<nat>)
    requires Enabled(s, CallerStep(c, wakes)) && Mutex(s)
    ensures Mutex(CallerNext(s, c, wakes))
  {
  }

  lemma DecidedKept(s: State, a: Action)
    requires Enabled(s, a) && Mutex(s) && Decided(s)
    ensures Decided(Next(s, a))
  {
    match a
    case WorkerStep(i, wakes) => DecidedKeptByWorker(s, i, wakes);
    case CallerStep(c, wakes) => DecidedKeptByCaller(s, c, wakes);
    case _ =>
  }

  lemma DecidedKeptByWorker(s: State, i: nat, wakes: Option<nat>)
    requires Enabled(s, WorkerStep(i, wakes)) && Mutex(s) && Decided(s)
    ensures Decided(WorkerNext(s, i, wakes))
  {
  }

  lemma DecidedKeptByCaller(s: State, c: nat, wakes: Option<nat>)
    requires Enabled(s, CallerStep(c, wakes)) && Mutex(s) && Decided(s)
    ensures Decided(CallerNext(s, c, wakes))
  {
  }

  // ----- stopping -----

  // stop has got as far as its mutex, the end of its first notify_all, the end of its second.
  predicate HasMutex(stop: StopPc) { stop.NotifyWorkers? || WorkersCalled(stop) }

  predicate WorkersCalled(stop: StopPc) { stop.NotifyCallers? || CallersCalled(stop) }

  predicate CallersCalled(stop: StopPc) { stop.StopUnlock? || stop.Join? || stop.Stopped? }

  // Once stop has the mutex nobody is about to sleep; each notify_all empties its side.
  ghost predicate Stopping(s: State) {
    && (forall i :: 0 <= i < |s.workers| ==>
          (HasMutex(s.stop) ==> s.workers[i] != TaskWait) &&
          (WorkersCalled(s.stop) ==> s.workers[i] != TaskAsleep) &&
          (s.stop.Join? && i < s.stop.next ==> s.workers[i] == Exited) &&
          (s.stop == Stopped ==> s.workers[i] == Exited))
    && (forall c :: 0 <= c < |s.callers| ==>
          (HasMutex(s.stop) ==> s.callers[c] != RoomWait) &&
          (CallersCalled(s.stop) ==> s.callers[c] != RoomAsleep))
    && (s.stop.Join? ==> s.stop.next <= |s.workers|)
  }

  lemma StoppingKept(s: State, a: Action)
    requires Enabled(s, a) && Mutex(s) && Decided(s) && Stopping(s)
    ensures Stopping(Next(s, a))
  {
    match a
    case WorkerStep(i, wakes) => StoppingKeptByWorker(s, i, wakes);
    case CallerStep(c, wakes) => StoppingKeptByCaller(s, c, wakes);
    case _ =>
  }

  lemma StoppingKeptByWorker(s: State, i: nat, wakes: Option<nat>)
    requires Enabled(s, WorkerStep(i, wakes)) && Mutex(s) && Decided(s) && Stopping(s)
    ensures Stopping(WorkerNext(s, i, wakes))
  {
  }

  lemma StoppingKeptByCaller(s: State, c: nat, wakes: Option<nat>)
    requires Enabled(s, CallerStep(c, wakes)) && Mutex(s) && Decided(s) && Stopping(s)
    ensures Stopping(CallerNext(s, c, wakes))
  {
  }

  // ----- where each accepted task is -----

  predicate IsAccepted(pc: CallerPc) {
    pc.PushUnlock? || pc.PushNotify? || pc.Accepted?
  }

  function HeldTask(pc: WorkerPc): Option<nat> {
    match pc
    case TaskNotify(t) => Some(t)
    case TaskUnlock(got) => got
    case AfterTask(got) => got
    case RunTask(t) => Some(t)
    case _ => None
  }

  function Holding(t: nat): WorkerPc -> bool {
    (pc: WorkerPc) => HeldTask(pc) == Some(t)
  }

  // Tasks leave the queue in the order they were accepted, and the accepted ones are exactly the
  // tasks of the calls that got past the push.
  ghost predicate InOrder(s: State) {
    && s.accepted == s.taken + s.tasks
    && (forall j, k :: 0 <= j < k < |s.accepted| ==> s.accepted[j] != s.accepted[k])
    && (forall c :: c in s.accepted ==> c < |s.callers| && IsAccepted(s.callers[c]))
    && (forall c :: 0 <= c < |s.callers| && IsAccepted(s.callers[c]) ==> c in s.accepted)
  }

  // A taken task is with one worker, has run, or was dropped, and only a stopped pool drops.
  ghost predicate Balance(s: State) {
    && (forall t: nat :: Balanced(s, t))
    && (s.running ==> s.dropped == multiset{})
  }

  lemma InOrderKept(s: State, a: Action)
    requires Enabled(s, a) && InOrder(s)
    ensures InOrder(Next(s, a))
  {
    match a
    case WorkerStep(i, wakes) => InOrderKeptByWorker(s, i, wakes);
    case CallerStep(c, wakes) => InOrderKeptByCaller(s, c, wakes);
    case _ =>
  }

  lemma InOrderKeptByWorker(s: State, i: nat, wakes: Option<nat>)
    requires Enabled(s, WorkerStep(i, wakes)) && InOrder(s)
    ensures InOrder(WorkerNext(s, i, wakes))
  {
    var s2 := WorkerNext(s, i, wakes);
    assert s2.accepted == s.accepted && s2.taken + s2.tasks == s.taken + s.tasks;
    assert forall c :: 0 <= c < |s.callers| ==> (IsAccepted(s2.callers[c]) <==> IsAccepted(s.callers[c]));
  }

  lemma InOrderKeptByCaller(s: State, c: nat, wakes: Option<nat>)
    requires Enabled(s, CallerStep(c, wakes)) && InOrder(s)
    ensures InOrder(CallerNext(s, c, wakes))
  {
    var s2 := CallerNext(s, c, wakes);
    if s.callers[c].RoomPush? {
      Queued(s, s2, c);
    } else {
      assert forall t :: 0 <= t < |s.callers| ==> (IsAccepted(s2.callers[t]) <==> IsAccepted(s.callers[t]));
    }
  }

  lemma Queued(s: State, s2: State, c: nat)
    requires InOrder(s) && c < |s.callers| && s.callers[c].RoomPush?
    requires s2.callers == s.callers[c := PushUnlock]
    requires s2.taken == s.taken && s2.tasks == s.tasks + [c] && s2.accepted == s.accepted + [c]
    ensures InOrder(s2)
  {
    assert s.taken + (s.tasks + [c]) == s.accepted + [c];
    assert c !in s.accepted;
    assert forall t :: t in s2.accepted <==> t in s.accepted || t == c;
  }

  ghost predicate Balanced(s: State, t: nat) {
    multiset(s.taken)[t] == Count(s.workers, Holding(t)) + s.ran[t] + s.dropped[t]
  }

  // One step of a worker moves at most one task: into its hands, into `ran`, or into `dropped`.
  lemma WorkerMoves(s: State, i: nat, wakes: Option<nat>, t: nat)
    requires Enabled(s, WorkerStep(i, wakes))
    ensures var s2 := WorkerNext(s, i, wakes);
            && |s2.workers| == |s.workers|
            && multiset(s2.taken)[t] + s.ran[t] + s.dropped[t] + (if Holding(t)(s.workers[i]) then 1 else 0)
               == multiset(s.taken)[t] + s2.ran[t] + s2.dropped[t] + (if Holding(t)(s2.workers[i]) then 1 else 0)
  {
    if s.workers[i].TaskTake? {
      WorkerTakes(s, i, wakes, t);
    }
  }

  lemma WorkerTakes(s: State, i: nat, wakes: Option<nat>, t: nat)
    requires Enabled(s, WorkerStep(i, wakes)) && s.workers[i].TaskTake?
    ensures var s2 := WorkerNext(s, i, wakes);
            && |s2.workers| == |s.workers| && s2.ran == s.ran && s2.dropped == s.dropped
            && multiset(s2.taken)[t] == multiset(s.taken)[t] + if Holding(t)(s2.workers[i]) then 1 else 0
  {
    if s.tasks != [] {
      assert multiset(s.taken + [s.tasks[0]]) == multiset(s.taken) + multiset{s.tasks[0]};
    }
  }

  lemma OneWorkerMoves(s: State, i: nat, wakes: Option<nat>)
    requires Enabled(s, WorkerStep(i, wakes))
    ensures var s2 := WorkerNext(s, i, wakes);
            |s2.workers| == |s.workers| && s2.workers == s.workers[i := s2.workers[i]]
  {
  }

  lemma BalancedByWorker(s: State, i: nat, wakes: Option<nat>, t: nat)
    requires Enabled(s, WorkerStep(i, wakes)) && Balanced(s, t)
    ensures Balanced(WorkerNext(s, i, wakes), t)
  {
    var s2 := WorkerNext(s, i, wakes);
    WorkerMoves(s, i, wakes, t);
    OneWorkerMoves(s, i, wakes);
    CountUpdate(s.workers, Holding(t), i, s2.workers[i]);
  }

  lemma {:induction false} CountSame<T>(s: seq<T>, s2: seq<T>, f: T -> bool)
    requires |s| == |s2| && forall i :: 0 <= i < |s| ==> f(s[i]) == f(s2[i])
    ensures Count(s, f) == Count(s2, f)
  {
    if s != [] {
      CountSame(s[1..], s2[1..], f);
    }
  }

  lemma OthersHoldTheSame(s: State, a: Action)
    requires Enabled(s, a) && !a.WorkerStep?
    ensures var s2 := Next(s, a);
            && s2.taken == s.taken && s2.ran == s.ran && s2.dropped == s.dropped
            && |s2.workers| == |s.workers|
            && forall i :: 0 <= i < |s.workers| ==> HeldTask(s2.workers[i]) == HeldTask(s.workers[i])
  {
  }

  lemma BalancedByOthers(s: State, a: Action, t: nat)
    requires Enabled(s, a) && !a.WorkerStep? && Balanced(s, t)
    ensures Balanced(Next(s, a), t)
  {
    OthersHoldTheSame(s, a);
    CountSame(s.workers, Next(s, a).workers, Holding(t));
  }

  lemma BalanceKept(s: State, a: Action)
    requires Enabled(s, a) && Balance(s)
    ensures Balance(Next(s, a))
  {
    forall t: nat ensures Balanced(Next(s, a), t) {
      assert Balanced(s, t);
      match a
      case WorkerStep(i, wakes) => BalancedByWorker(s, i, wakes, t);
      case _ => BalancedByOthers(s, a, t);
    }
  }

  // ----- no wake-up is lost -----

  // Workers that will look at the queue before they can sleep again.
  predicate Heeding(pc: WorkerPc) { pc.TaskWoken? || pc.TaskCheck? || pc.TaskTake? }

  // Calls that have queued a task and still owe its notify_one.
  predicate Announcing(pc: CallerPc) { pc.PushUnlock? || pc.PushNotify? }

  predicate Seeking(pc: CallerPc) { pc.RoomWoken? || pc.RoomCheck? || pc.RoomReady? || pc.RoomPush? }

  predicate Freeing(pc: WorkerPc) { pc.TaskNotify? }

  // While the pool runs: a worker sleeps only if every queued task is covered by a worker on its
  // way or a notify_one still to come, and a caller sleeps only if every free place is.
  ghost predicate NoLostWakeup(s: State) {
    s.running ==>
      && (TaskAsleep in s.workers ==> |s.tasks| <= Count(s.workers, Heeding) + Count(s.callers, Announcing))
      && (RoomAsleep in s.callers ==>
            s.maxSize - |s.tasks| <= Count(s.callers, Seeking) + Count(s.workers, Freeing))
  }

  lemma WakeupKeptByWorker(s: State, i: nat, wakes: Option<nat>)
    requires Enabled(s, WorkerStep(i, wakes)) && Mutex(s) && Decided(s) && NoLostWakeup(s)
    ensures NoLostWakeup(WorkerNext(s, i, wakes))
  {
    var s2 := WorkerNext(s, i, wakes);
    CountUpdate(s.workers, Heeding, i, s2.workers[i]);
    CountUpdate(s.workers, Freeing, i, s2.workers[i]);
    if s.workers[i].TaskNotify? && wakes.Some? {
      CountUpdate(s.callers, Announcing, wakes.value, RoomWoken);
      CountUpdate(s.callers, Seeking, wakes.value, RoomWoken);
    }
    if TaskAsleep in s2.workers && !s.workers[i].TaskWait? {
      assert TaskAsleep in s.workers;
    }
  }

  lemma WakeupKeptByCaller(s: State, c: nat, wakes: Option<nat>)
    requires Enabled(s, CallerStep(c, wakes)) && Mutex(s) && Decided(s) && NoLostWakeup(s)
    ensures NoLostWakeup(CallerNext(s, c, wakes))
  {
    var s2 := CallerNext(s, c, wakes);
    CountUpdate(s.callers, Announcing, c, s2.callers[c]);
    CountUpdate(s.callers, Seeking, c, s2.callers[c]);
    if s.callers[c].PushNotify? && wakes.Some? {
      CountUpdate(s.workers, Heeding, wakes.value, TaskWoken);
      CountUpdate(s.workers, Freeing, wakes.value, TaskWoken);
    }
    if RoomAsleep in s2.callers && !s.callers[c].RoomWait? {
      assert RoomAsleep in s.callers;
    }
  }

  lemma WakeupKept(s: State, a: Action)
    requires Enabled(s, a) && Mutex(s) && Decided(s) && NoLostWakeup(s)
    ensures NoLostWakeup(Next(s, a))
  {
    match a
    case WorkerStep(i, wakes) => WakeupKeptByWorker(s, i, wakes);
    case CallerStep(c, wakes) => WakeupKeptByCaller(s, c, wakes);
    case StopStep =>
    case NewCall =>
      CountAppend(s.callers, Announcing, WantRoom);
      CountAppend(s.callers, Seeking, WantRoom);
    case SpuriousWorker(i) =>
      CountUpdate(s.workers, Heeding, i, TaskWoken);
      CountUpdate(s.workers, Freeing, i, TaskWoken);
    case SpuriousCaller(c) =>
      CountUpdate(s.callers, Announcing, c, RoomWoken);
      CountUpdate(s.callers, Seeking, c, RoomWoken);
  }

  // ----- whole runs -----

  ghost predicate Inv(s: State) {
    Mutex(s) && Decided(s) && Stopping(s) && InOrder(s) && Balance(s) && NoLostWakeup(s)
  }

  lemma InitInv(s: State)
    requires Init(s)
    ensures Inv(s)
  {
    assert forall i :: 0 <= i < |s.workers| ==> s.workers[i] in s.workers && s.workers[i] == LoopTest;
    forall t: nat ensures Count(s.workers, Holding(t)) == 0 {
      CountZero(s.workers, Holding(t));
    }
  }

  lemma StepKeepsInv(s: State, a: Action)
    requires Enabled(s, a) && Inv(s)
    ensures Inv(Next(s, a))
  {
    MutexKept(s, a);
    DecidedKept(s, a);
    StoppingKept(s, a);
    InOrderKept(s, a);
    BalanceKept(s, a);
    WakeupKept(s, a);
  }

  lemma {:induction false} EveryRunKeepsInv(run: seq<State>, k: nat)
    requires Run(run) && k < |run|
    ensures Inv(run[k])
  {
    if k == 0 {
      InitInv(run[0]);
    } else {
      EveryRunKeepsInv(run, k - 1);
      assert StepAt(run, k);
      var a :| Enabled(run[k - 1], a) && run[k] == Next(run[k - 1], a);
      StepKeepsInv(run[k - 1], a);
    }
  }

  // The queue never outgrows its bound, although _running changes outside the mutex.
  lemma QueueStaysBounded(run: seq<State>, k: nat)
    requires Run(run) && k < |run|
    ensures run[k].maxSize == run[0].maxSize && |run[k].tasks| <= run[0].maxSize
  {
    EveryRunKeepsInv(run, k);
    if k > 0 {
      QueueStaysBounded(run, k - 1);
      assert StepAt(run, k);
    }
  }

  // An accepted task is queued, in one worker's hands, run, or dropped: exactly one of these, and
  // once. A task that was not accepted is nowhere. Only a stopped pool drops, and workers take
  // tasks in the order in which they were accepted.
  lemma EachTaskInOnePlace(run: seq<State>, k: nat, t: nat)
    requires Run(run) && k < |run|
    ensures var s := run[k];
            && multiset(s.tasks)[t] + Count(s.workers, Holding(t)) + s.ran[t] + s.dropped[t]
               == (if t in s.accepted then 1 else 0)
            && (t in s.accepted <==> t < |s.callers| && IsAccepted(s.callers[t]))
            && (s.running ==> s.dropped[t] == 0)
            && s.taken <= s.accepted
  {
    EveryRunKeepsInv(run, k);
    var s := run[k];
    assert Balanced(s, t);
    DistinctOnce(s.accepted, t);
    assert multiset(s.accepted) == multiset(s.taken) + multiset(s.tasks);
  }

  // In every running state, sleeping workers leave no queued task unattended, and sleeping
  // callers leave no free place unattended.
  lemma NoWakeupIsLost(run: seq<State>, k: nat)
    requires Run(run) && k < |run| && run[k].running
    ensures var s := run[k];
            && (TaskAsleep in s.workers ==> |s.tasks| <= Count(s.workers, Heeding) + Count(s.callers, Announcing))
            && (RoomAsleep in s.callers ==>
                  s.maxSize - |s.tasks| <= Count(s.callers, Seeking) + Count(s.workers, Freeing))
  {
    EveryRunKeepsInv(run, k);
  }

  // After both notify_all calls of stop nobody is asleep on either condition variable, then and
  // at every later state.
  lemma {:induction false} NobodySleepsAfterStop(run: seq<State>, k: nat, j: nat)
    requires Run(run) && k <= j < |run| && CallersCalled(run[k].stop)
    ensures CallersCalled(run[j].stop) && TaskAsleep !in run[j].workers && RoomAsleep !in run[j].callers
  {
    if k < j {
      NobodySleepsAfterStop(run, k, j - 1);
      StaysCalled(run, j);
    }
    AllAwake(run, j);
  }

  lemma StaysCalled(run: seq<State>, j: nat)
    requires Run(run) && 0 < j < |run| && CallersCalled(run[j - 1].stop)
    ensures CallersCalled(run[j].stop)
  {
    assert StepAt(run, j);
  }

  lemma AllAwake(run: seq<State>, j: nat)
    requires Run(run) && j < |run| && CallersCalled(run[j].stop)
    ensures TaskAsleep !in run[j].workers && RoomAsleep !in run[j].callers
  {
    EveryRunKeepsInv(run, j);
  }

  // ----- how a call of run ends -----

  // A task is turned away only once the pool has been told to stop, and is run by its caller
  // exactly when there are no workers.
  ghost predicate RightlyEnded(s: State) {
    forall c :: 0 <= c < |s.callers| ==>
      match s.callers[c]
      case RejectUnlock => !s.running && |s.workers| > 0
      case Rejected => !s.running && |s.workers| > 0
      case RanInline => |s.workers| == 0
      case WantRoom => true
      case _ => |s.workers| > 0
  }

  lemma RightlyEndedKept(s: State, a: Action)
    requires Enabled(s, a) && Decided(s) && RightlyEnded(s)
    ensures RightlyEnded(Next(s, a))
  {
    match a
    case WorkerStep(i, wakes) => RightlyEndedKeptByWorker(s, i, wakes);
    case CallerStep(c, wakes) => RightlyEndedKeptByCaller(s, c, wakes);
    case _ =>
  }

  lemma RightlyEndedKeptByWorker(s: State, i: nat, wakes: Option<nat>)
    requires Enabled(s, WorkerStep(i, wakes)) && RightlyEnded(s)
    ensures RightlyEnded(WorkerNext(s, i, wakes))
  {
    assert |WorkerNext(s, i, wakes).workers| == |s.workers|;
  }

  lemma RightlyEndedKeptByCaller(s: State, c: nat, wakes: Option<nat>)
    requires Enabled(s, CallerStep(c, wakes)) && RightlyEnded(s)
    ensures RightlyEnded(CallerNext(s, c, wakes))
  {
    assert |CallerNext(s, c, wakes).workers| == |s.workers|;
  }

  lemma {:induction false} EveryRunEndsCallsRightly(run: seq<State>, k: nat)
    requires Run(run) && k < |run|
    ensures RightlyEnded(run[k])
  {
    if k > 0 {
      EveryRunEndsCallsRightly(run, k - 1);
      OneStepEndsRightly(run, k - 1);
    }
  }

  lemma OneStepEndsRightly(run: seq<State>, k: nat)
    requires Run(run) && k + 1 < |run| && RightlyEnded(run[k])
    ensures RightlyEnded(run[k + 1])
  {
    EveryRunKeepsInv(run, k);
    assert StepAt(run, k + 1);
    var a :| Enabled(run[k], a) && run[k + 1] == Next(run[k], a);
    RightlyEndedKept(run[k], a);
  }

  // A call that has returned has run its task itself exactly when there are no workers, has had
  // it refused only by a pool told to stop, and has queued it otherwise.
  lemma CallsEndRightly(run: seq<State>, k: nat, c: nat)
    requires Run(run) && k < |run| && c < |run[k].callers| && Finished(run[k].callers[c])
    ensures var s := run[k];
            && (s.callers[c] == RanInline <==> |s.workers| == 0)
            && (s.callers[c] == Rejected ==> !s.running)
            && (s.callers[c] == Accepted <==> c in s.accepted)
  {
    EveryRunEndsCallsRightly(run, k);
    EveryRunKeepsInv(run, k);
  }

  // ----- what workers still do once the pool is told to stop -----

  predicate LeavingLoop(pc: WorkerPc) { pc.RunTask? || pc.LoopTest? || pc.Exited? }

  lemma StoppedWorkerStep(s: State, a: Action, i: nat)
    requires Enabled(s, a) && !s.running && i < |s.workers| && s.stop != NotStopped
    ensures var s2 := Next(s, a);
            && !s2.running && s2.stop != NotStopped && |s2.workers| == |s.workers|
            && (s2.workers[i].RunTask? ==> s2.workers[i] == s.workers[i])
            && (LeavingLoop(s.workers[i]) ==> LeavingLoop(s2.workers[i]))
  {
    match a
    case WorkerStep(j, wakes) => StoppedWorkerMoves(s, j, wakes, i);
    case _ =>
  }

  lemma StoppedWorkerMoves(s: State, j: nat, wakes: Option<nat>, i: nat)
    requires Enabled(s, WorkerStep(j, wakes)) && !s.running && i < |s.workers|
    ensures var s2 := WorkerNext(s, j, wakes);
            && s2.running == s.running && s2.stop == s.stop && |s2.workers| == |s.workers|
            && (s2.workers[i].RunTask? ==> s2.workers[i] == s.workers[i])
            && (LeavingLoop(s.workers[i]) ==> LeavingLoop(s2.workers[i]))
  {
  }

  // Once the pool is told to stop no task is begun: a worker that runs one has been running it
  // since, and a worker that was running one, or at the top of its loop, takes no other.
  lemma {:induction false} NothingBeginsAfterStop(run: seq<State>, k: nat, m: nat, i: nat)
    requires Run(run) && k <= m < |run| && !run[k].running && i < |run[k].workers|
    ensures !run[m].running && |run[m].workers| == |run[k].workers|
    ensures run[m].workers[i].RunTask? ==> run[m].workers[i] == run[k].workers[i]
    ensures LeavingLoop(run[k].workers[i]) ==> LeavingLoop(run[m].workers[i])
  {
    if k < m {
      NothingBeginsAfterStop(run, k, m - 1, i);
      OneStepStopped(run, m - 1, i);
    }
  }

  lemma OneStepStopped(run: seq<State>, m: nat, i: nat)
    requires Run(run) && m + 1 < |run| && !run[m].running && i < |run[m].workers|
    ensures !run[m + 1].running && |run[m + 1].workers| == |run[m].workers|
    ensures run[m + 1].workers[i].RunTask? ==> run[m + 1].workers[i] == run[m].workers[i]
    ensures LeavingLoop(run[m].workers[i]) ==> LeavingLoop(run[m + 1].workers[i])
  {
    EveryRunKeepsInv(run, m);
    assert StepAt(run, m + 1);
    var a :| Enabled(run[m], a) && run[m + 1] == Next(run[m], a);
    StoppedWorkerStep(run[m], a, i);
  }

  // ----- no thread waits for ever -----

  // Nothing can happen but a spurious wake-up, a new call, or the start of stop.
  ghost predicate Quiescent(s: State) {
    && (forall i, wakes :: !Enabled(s, WorkerStep(i, wakes)))
    && (forall c, wakes :: !Enabled(s, CallerStep(c, wakes)))
    && (s.stop != NotStopped ==> !Enabled(s, StopStep))
  }

  predicate Finished(pc: CallerPc) {
    pc.Accepted? || pc.Rejected? || pc.RanInline?
  }

  ghost function SomeWorker(ws: seq<WorkerPc>): (wakes: Option<nat>)
    ensures PicksWorker(ws, wakes)
  {
    if TaskAsleep in ws then
      var i :| 0 <= i < |ws| && ws[i] == TaskAsleep;
      Some(i)
    else None
  }

  ghost function SomeCaller(cs: seq<CallerPc>): (wakes: Option<nat>)
    ensures PicksCaller(cs, wakes)
  {
    if RoomAsleep in cs then
      var c :| 0 <= c < |cs| && cs[c] == RoomAsleep;
      Some(c)
    else None
  }

  lemma HolderCanMove(s: State)
    requires Mutex(s) && s.owner != Nobody
    ensures !Quiescent(s)
  {
    var w, c := SomeWorker(s.workers), SomeCaller(s.callers);
    match s.owner
    case Worker(i) => assert Enabled(s, WorkerStep(i, c));
    case Caller(i) => assert Enabled(s, CallerStep(i, w));
    case Stopper => assert Enabled(s, StopStep);
    case Nobody =>
  }

  // Whoever holds the mutex can go on, so in a quiescent state it is free and every thread is
  // asleep, finished, or waiting to be joined.
  lemma QuiescentThreads(s: State)
    requires Inv(s) && Quiescent(s)
    ensures s.owner == Nobody
    ensures forall i :: 0 <= i < |s.workers| ==> s.workers[i] == TaskAsleep || s.workers[i] == Exited
    ensures forall c :: 0 <= c < |s.callers| ==> s.callers[c] == RoomAsleep || Finished(s.callers[c])
  {
    var w, c := SomeWorker(s.workers), SomeCaller(s.callers);
    if s.owner != Nobody {
      HolderCanMove(s);
      assert false;
    }
    forall i: nat | i < |s.workers| ensures s.workers[i] == TaskAsleep || s.workers[i] == Exited {
      assert !Enabled(s, WorkerStep(i, c));
    }
    forall i: nat | i < |s.callers| ensures s.callers[i] == RoomAsleep || Finished(s.callers[i]) {
      assert !Enabled(s, CallerStep(i, w));
    }
  }

  // A running pool with room for a task comes to rest only when there is nothing left to do:
  // the queue is empty, every call has returned and every worker is waiting for work.
  lemma RunningPoolRestsIdle(run: seq<State>, k: nat)
    requires Run(run) && k < |run| && Quiescent(run[k])
    requires run[k].running && |run[k].workers| > 0 && run[k].maxSize > 0
    ensures var s := run[k];
            && s.tasks == []
            && (forall i :: 0 <= i < |s.workers| ==> s.workers[i] == TaskAsleep)
            && (forall c :: 0 <= c < |s.callers| ==> Finished(s.callers[c]))
  {
    EveryRunKeepsInv(run, k);
    var s := run[k];
    QuiescentThreads(s);
    assert s.workers[0] == TaskAsleep && TaskAsleep in s.workers;
    CountZero(s.workers, Heeding);
    CountZero(s.callers, Announcing);
    CountZero(s.workers, Freeing);
    CountZero(s.callers, Seeking);
  }

  // A pool told to stop comes to rest only when stop has returned, every worker has left its
  // loop and every call has returned.
  lemma StoppingPoolRestsStopped(run: seq<State>, k: nat)
    requires Run(run) && k < |run| && Quiescent(run[k]) && !run[k].running
    ensures var s := run[k];
            && s.stop == Stopped
            && (forall i :: 0 <= i < |s.workers| ==> s.workers[i] == Exited)
            && (forall c :: 0 <= c < |s.callers| ==> Finished(s.callers[c]))
  {
    EveryRunKeepsInv(run, k);
    QuiescentThreads(run[k]);
  }
}
