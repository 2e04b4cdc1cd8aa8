// The bounded thread pool as its atomic steps: each mutex operation, each wait, each notify and
// each read or write of _running, which stop clears without the mutex, is one step, and any thread
// may take the next.
module ThreadPool {
  import opened Options

  // Where a worker stands in run_in_thread and get_task. The pc values from TaskCheck to TaskWait
  // and from TaskTake to TaskUnlock hold the mutex.
  datatype WorkerPc =
    | LoopTest
    | WantTask
    | TaskCheck
    | TaskWait
    | TaskAsleep
    | TaskWoken
    | TaskTake
    | TaskNotify(task: nat)
    | TaskUnlock(got: Option<nat>)
    | AfterTask(got: Option<nat>)
    | RunTask(task: nat)
    | Exited

  // Where one call of run(task) stands; the task is named by the call's number.
  datatype CallerPc =
    | WantRoom
    | RoomCheck
    | RoomWait
    | RoomAsleep
    | RoomWoken
    | RoomReady
    | RoomPush
    | PushUnlock
    | PushNotify
    | RejectUnlock
    | Accepted
    | Rejected
    | RanInline

  datatype StopPc = NotStopped | StopLock | NotifyWorkers | NotifyCallers | StopUnlock | Join(next: nat) | Stopped

  datatype Owner = Nobody | Worker(i: nat) | Caller(c: nat) | Stopper

  datatype State = State(
    maxSize: nat,
    owner: Owner,
    running: bool,
    tasks: seq<nat>,
    workers: seq<WorkerPc>,
    callers: seq<CallerPc>,
    stop: StopPc,
    accepted: seq<nat>,       // tasks in the order they were queued
    taken: seq<nat>,          // tasks in the order workers took them
    ran: multiset<nat>,
    dropped: multiset<nat>)

  // `wakes` is the sleeper that a notify_one picks, if there is one to pick.
  datatype Action =
    | WorkerStep(i: nat, wakes: Option<nat>)
    | CallerStep(c: nat, wakes: Option<nat>)
    | StopStep
    | NewCall
    | SpuriousWorker(i: nat)
    | SpuriousCaller(c: nat)

  // The pool once start has returned.
  ghost predicate Init(s: State) {
    && s.owner == Nobody && s.running && s.stop == NotStopped
    && s.tasks == [] && s.callers == [] && s.accepted == [] && s.taken == []
    && s.ran == multiset{} && s.dropped == multiset{}
    && forall w :: w in s.workers ==> w == LoopTest
  }

  predicate WorkerHolds(pc: WorkerPc) {
    pc.TaskCheck? || pc.TaskWait? || pc.TaskTake? || pc.TaskNotify? || pc.TaskUnlock?
  }

  predicate CallerHolds(pc: CallerPc) {
    pc.RoomCheck? || pc.RoomWait? || pc.RoomReady? || pc.RoomPush? || pc.PushUnlock? || pc.RejectUnlock?
  }

  predicate StopHolds(pc: StopPc) {
    pc.NotifyWorkers? || pc.NotifyCallers? || pc.StopUnlock?
  }

  // A notify_one reaches one sleeper, and none only when nobody sleeps.
  predicate PicksWorker(ws: seq<WorkerPc>, wakes: Option<nat>) {
    match wakes
    case Some(i) => i < |ws| && ws[i] == TaskAsleep
    case None => TaskAsleep !in ws
  }

  predicate PicksCaller(cs: seq<CallerPc>, wakes: Option<nat>) {
    match wakes
    case Some(c) => c < |cs| && cs[c] == RoomAsleep
    case None => RoomAsleep !in cs
  }

  function WakeWorker(ws: seq<WorkerPc>, wakes: Option<nat>): seq<WorkerPc>
    requires PicksWorker(ws, wakes)
  {
    if wakes.Some? then ws[wakes.value := TaskWoken] else ws
  }

  function WakeCaller(cs: seq<CallerPc>, wakes: Option<nat>): seq<CallerPc>
    requires PicksCaller(cs, wakes)
  {
    if wakes.Some? then cs[wakes.value := RoomWoken] else cs
  }

  predicate Enabled(s: State, a: Action) {
    match a
    case WorkerStep(i, wakes) =>
      i < |s.workers| &&
      (match s.workers[i]
       case WantTask => s.owner == Nobody
       case TaskWoken => s.owner == Nobody
       case TaskAsleep => false
       case TaskNotify(_) => PicksCaller(s.callers, wakes)
       case Exited => false
       case _ => true)
    case CallerStep(c, wakes) =>
      c < |s.callers| &&
      (match s.callers[c]
       case WantRoom => |s.workers| == 0 || s.owner == Nobody
       case RoomWoken => s.owner == Nobody
       case RoomAsleep => false
       case PushNotify => PicksWorker(s.workers, wakes)
       case Accepted => false
       case Rejected => false
       case RanInline => false
       case _ => true)
    case StopStep =>
      (match s.stop
       case StopLock => s.owner == Nobody
       case Join(next) => next < |s.workers| ==> s.workers[next] == Exited
       case Stopped => false
       case _ => true)
    case NewCall => true
    case SpuriousWorker(i) => i < |s.workers| && s.workers[i] == TaskAsleep
    case SpuriousCaller(c) => c < |s.callers| && s.callers[c] == RoomAsleep
  }

  function WorkerNext(s: State, i: nat, wakes: Option<nat>): State
    requires Enabled(s, WorkerStep(i, wakes))
  {
    var ws := s.workers;
    match ws[i]
    case LoopTest => s.(workers := ws[i := if s.running then WantTask else Exited])
    case WantTask => s.(workers := ws[i := TaskCheck], owner := Worker(i))
    case TaskWoken => s.(workers := ws[i := TaskCheck], owner := Worker(i))
    case TaskCheck => s.(workers := ws[i := if s.tasks == [] && s.running then TaskWait else TaskTake])
    case TaskWait => s.(workers := ws[i := TaskAsleep], owner := Nobody)
    case TaskTake =>
      if s.tasks == [] then s.(workers := ws[i := TaskUnlock(None)])
      else s.(workers := ws[i := TaskNotify(s.tasks[0])], tasks := s.tasks[1..], taken := s.taken + [s.tasks[0]])
    case TaskNotify(t) => s.(workers := ws[i := TaskUnlock(Some(t))], callers := WakeCaller(s.callers, wakes))
    case TaskUnlock(got) => s.(workers := ws[i := AfterTask(got)], owner := Nobody)
    case AfterTask(got) =>
      if !s.running then
        s.(workers := ws[i := Exited], dropped := s.dropped + if got.Some? then multiset{got.value} else multiset{})
      else s.(workers := ws[i := if got.Some? then RunTask(got.value) else LoopTest])
    case RunTask(t) => s.(workers := ws[i := LoopTest], ran := s.ran + multiset{t})
    case _ => s
  }

  function CallerNext(s: State, c: nat, wakes: Option<nat>): State
    requires Enabled(s, CallerStep(c, wakes))
  {
    var cs := s.callers;
    match cs[c]
    case WantRoom =>
      if |s.workers| == 0 then s.(callers := cs[c := RanInline])
      else s.(callers := cs[c := RoomCheck], owner := Caller(c))
    case RoomWoken => s.(callers := cs[c := RoomCheck], owner := Caller(c))
    case RoomCheck => s.(callers := cs[c := if |s.tasks| == s.maxSize && s.running then RoomWait else RoomReady])
    case RoomWait => s.(callers := cs[c := RoomAsleep], owner := Nobody)
    case RoomReady => s.(callers := cs[c := if s.running then RoomPush else RejectUnlock])
    case RoomPush => s.(callers := cs[c := PushUnlock], tasks := s.tasks + [c], accepted := s.accepted + [c])
    case PushUnlock => s.(callers := cs[c := PushNotify], owner := Nobody)
    case PushNotify => s.(callers := cs[c := Accepted], workers := WakeWorker(s.workers, wakes))
    case RejectUnlock => s.(callers := cs[c := Rejected], owner := Nobody)
    case _ => s
  }

  function WakeAllWorkers(ws: seq<WorkerPc>): seq<WorkerPc> {
    seq(|ws|, i requires 0 <= i < |ws| => if ws[i] == TaskAsleep then TaskWoken else ws[i])
  }

  function WakeAllCallers(cs: seq<CallerPc>): seq<CallerPc> {
    seq(|cs|, c requires 0 <= c < |cs| => if cs[c] == RoomAsleep then RoomWoken else cs[c])
  }

  // stop clears _running before it takes the mutex.
  function StopNext(s: State): State
    requires Enabled(s, StopStep)
  {
    match s.stop
    case NotStopped => s.(running := false, stop := StopLock)
    case StopLock => s.(owner := Stopper, stop := NotifyWorkers)
    case NotifyWorkers => s.(workers := WakeAllWorkers(s.workers), stop := NotifyCallers)
    case NotifyCallers => s.(callers := WakeAllCallers(s.callers), stop := StopUnlock)
    case StopUnlock => s.(owner := Nobody, stop := Join(0))
    case Join(next) => s.(stop := if next < |s.workers| then Join(next + 1) else Stopped)
    case Stopped => s
  }

  function Next(s: State, a: Action): State
    requires Enabled(s, a)
  {
    match a
    case WorkerStep(i, wakes) => WorkerNext(s, i, wakes)
    case CallerStep(c, wakes) => CallerNext(s, c, wakes)
    case StopStep => StopNext(s)
    case NewCall => s.(callers := s.callers + [WantRoom])
    case SpuriousWorker(i) => s.(workers := s.workers[i := TaskWoken])
    case SpuriousCaller(c) => s.(callers := s.callers[c := RoomWoken])
  }

  ghost predicate Step(s: State, s2: State) {
    exists a :: Enabled(s, a) && s2 == Next(s, a)
  }

  ghost predicate Run(run: seq<State>) {
    run != [] && Init(run[0]) && forall k :: 0 < k < |run| ==> StepAt(run, k)
  }

  ghost predicate StepAt(run: seq<State>, k: nat)
    requires 0 < k < |run|
  {
    Step(run[k - 1], run[k])
  }
}
