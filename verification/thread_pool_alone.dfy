// What each thread of the pool does when no other thread interferes: the program of run, of a
// worker and of stop, from its first step to its return or its sleep.
module ThreadPoolAlone {
  import opened Options
  import opened ThreadPool
  import opened ThreadPoolProofs

  // ----- one call of run -----

  predicate CallAtRest(pc: CallerPc) { Finished(pc) || pc.RoomAsleep? }

  // At most n steps of call c with no other thread in between, up to its return or its sleep.
  ghost function CallAlone(s: State, c: nat, n: nat): State
    requires c < |s.callers|
    decreases n
  {
    var a := CallerStep(c, SomeWorker(s.workers));
    if n == 0 || CallAtRest(s.callers[c]) || !Enabled(s, a) || c >= |Next(s, a).callers| then s
    else CallAlone(Next(s, a), c, n - 1)
  }

  lemma CallOneStep(s: State, c: nat, s2: State, n: nat)
    requires c < |s.callers| == |s2.callers| && !CallAtRest(s.callers[c])
    requires Enabled(s, CallerStep(c, SomeWorker(s.workers)))
    requires CallerNext(s, c, SomeWorker(s.workers)) == s2
    ensures CallAlone(s, c, n + 1) == CallAlone(s2, c, n)
  {
  }

  // Left alone, a call that is about to take the mutex queues its task when the pool runs and has
  // room, goes to sleep when the pool runs and is full, and is turned away otherwise.
  lemma CallByItself(s: State, c: nat)
    requires s.owner == Nobody && |s.workers| > 0 && |s.tasks| <= s.maxSize
    requires c < |s.callers| && (s.callers[c] == WantRoom || s.callers[c] == RoomWoken)
    ensures c < |CallAlone(s, c, 6).callers|
    ensures var s2 := CallAlone(s, c, 6);
            && s2.owner == Nobody
            && if !s.running then s2 == s.(callers := s.callers[c := Rejected])
               else if |s.tasks| == s.maxSize then s2 == s.(callers := s.callers[c := RoomAsleep])
               else s2.callers[c] == Accepted && s2.tasks == s.tasks + [c] && s2.accepted == s.accepted + [c]
  {
    var cs := s.callers;
    var s1 := s.(callers := cs[c := RoomCheck], owner := Caller(c));
    CallOneStep(s, c, s1, 5);
    if s.running && |s.tasks| == s.maxSize {
      CallSleeps(s, s1, c);
    } else {
      var s2 := s.(callers := cs[c := RoomReady], owner := Caller(c));
      CallOneStep(s1, c, s2, 4);
      if s.running {
        CallQueues(s, s2, c);
      } else {
        CallTurnedAway(s, s2, c);
      }
    }
  }

  lemma CallSleeps(s: State, s1: State, c: nat)
    requires c < |s.callers| && s.owner == Nobody && s1 == s.(callers := s.callers[c := RoomCheck], owner := Caller(c))
    requires s.running && |s.tasks| == s.maxSize
    ensures CallAlone(s1, c, 5) == s.(callers := s.callers[c := RoomAsleep])
  {
    var s2 := s.(callers := s.callers[c := RoomWait], owner := Caller(c));
    var s3 := s.(callers := s.callers[c := RoomAsleep]);
    CallOneStep(s1, c, s2, 4);
    CallOneStep(s2, c, s3, 3);
  }

  lemma CallTurnedAway(s: State, s2: State, c: nat)
    requires c < |s.callers| && s.owner == Nobody && s2 == s.(callers := s.callers[c := RoomReady], owner := Caller(c))
    requires !s.running
    ensures CallAlone(s2, c, 4) == s.(callers := s.callers[c := Rejected])
  {
    var s3 := s.(callers := s.callers[c := RejectUnlock], owner := Caller(c));
    var s4 := s.(callers := s.callers[c := Rejected]);
    CallOneStep(s2, c, s3, 3);
    CallOneStep(s3, c, s4, 2);
  }

  lemma CallQueues(s: State, s2: State, c: nat)
    requires c < |s.callers| && s.owner == Nobody && s2 == s.(callers := s.callers[c := RoomReady], owner := Caller(c))
    requires s.running
    ensures c < |CallAlone(s2, c, 4).callers|
    ensures var s6 := CallAlone(s2, c, 4);
            s6.owner == Nobody && s6.callers[c] == Accepted && s6.tasks == s.tasks + [c] && s6.accepted == s.accepted + [c]
  {
    var cs := s.callers;
    var s3 := s.(callers := cs[c := RoomPush], owner := Caller(c));
    var q := s.(tasks := s.tasks + [c], accepted := s.accepted + [c]);
    var s4 := q.(callers := cs[c := PushUnlock], owner := Caller(c));
    var s5 := q.(callers := cs[c := PushNotify]);
    CallOneStep(s2, c, s3, 3);
    CallOneStep(s3, c, s4, 2);
    CallOneStep(s4, c, s5, 1);
    var s6 := q.(callers := cs[c := Accepted], workers := WakeWorker(s.workers, SomeWorker(s.workers)));
    CallOneStep(s5, c, s6, 0);
  }

  // Without workers the caller runs the task itself.
  lemma CallWithoutWorkers(s: State, c: nat)
    requires |s.workers| == 0 && c < |s.callers| && s.callers[c] == WantRoom
    ensures CallAlone(s, c, 1) == s.(callers := s.callers[c := RanInline])
  {
    CallOneStep(s, c, s.(callers := s.callers[c := RanInline]), 0);
  }

  // ----- one round of a worker -----

  predicate WorkerAtRest(pc: WorkerPc) { pc.LoopTest? || pc.TaskAsleep? || pc.Exited? }

  ghost function WorkerAlone(s: State, i: nat, n: nat): State
    requires i < |s.workers|
    decreases n
  {
    var a := WorkerStep(i, SomeCaller(s.callers));
    if n == 0 || WorkerAtRest(s.workers[i]) || !Enabled(s, a) || i >= |Next(s, a).workers| then s
    else WorkerAlone(Next(s, a), i, n - 1)
  }

  lemma WorkerOneStep(s: State, i: nat, s2: State, n: nat)
    requires i < |s.workers| == |s2.workers| && !WorkerAtRest(s.workers[i])
    requires Enabled(s, WorkerStep(i, SomeCaller(s.callers)))
    requires WorkerNext(s, i, SomeCaller(s.callers)) == s2
    ensures WorkerAlone(s, i, n + 1) == WorkerAlone(s2, i, n)
  {
  }

  // At the top of its loop a worker goes for a task exactly when the pool runs.
  lemma LoopTop(s: State, i: nat, wakes: Option<nat>)
    requires i < |s.workers| && s.workers[i] == LoopTest
    ensures Enabled(s, WorkerStep(i, wakes))
    ensures WorkerNext(s, i, wakes) == s.(workers := s.workers[i := if s.running then WantTask else Exited])
  {
  }

  // Left alone, a worker that is about to take the mutex takes the oldest task and runs it, or
  // drops it and leaves when the pool has been told to stop; without a task it goes to sleep in a
  // running pool and leaves otherwise.
  lemma WorkerByItself(s: State, i: nat)
    requires s.owner == Nobody && i < |s.workers| && (s.workers[i] == WantTask || s.workers[i] == TaskWoken)
    ensures i < |WorkerAlone(s, i, 7).workers|
    ensures var s2 := WorkerAlone(s, i, 7);
            && s2.owner == Nobody
            && if s.tasks != [] then
                 && s2.tasks == s.tasks[1..] && s2.taken == s.taken + [s.tasks[0]]
                 && (if s.running then
                       s2.workers[i] == LoopTest && s2.ran == s.ran + multiset{s.tasks[0]} && s2.dropped == s.dropped
                     else
                       s2.workers[i] == Exited && s2.ran == s.ran && s2.dropped == s.dropped + multiset{s.tasks[0]})
               else s2 == s.(workers := s.workers[i := if s.running then TaskAsleep else Exited])
  {
    var s1 := s.(workers := s.workers[i := TaskCheck], owner := Worker(i));
    WorkerOneStep(s, i, s1, 6);
    if s.tasks == [] && s.running {
      var s2 := s.(workers := s.workers[i := TaskWait], owner := Worker(i));
      WorkerOneStep(s1, i, s2, 5);
      WorkerOneStep(s2, i, s.(workers := s.workers[i := TaskAsleep]), 4);
    } else {
      var s2 := s.(workers := s.workers[i := TaskTake], owner := Worker(i));
      WorkerOneStep(s1, i, s2, 5);
      if s.tasks == [] {
        WorkerLeaves(s, s2, i);
      } else {
        WorkerServes(s, s2, i);
      }
    }
  }

  lemma WorkerLeaves(s: State, s2: State, i: nat)
    requires i < |s.workers| && s.owner == Nobody && s2 == s.(workers := s.workers[i := TaskTake], owner := Worker(i))
    requires s.tasks == [] && !s.running
    ensures WorkerAlone(s2, i, 5) == s.(workers := s.workers[i := Exited])
  {
    var s3 := s.(workers := s.workers[i := TaskUnlock(None)], owner := Worker(i));
    var s4 := s.(workers := s.workers[i := AfterTask(None)]);
    var s5 := s.(workers := s.workers[i := Exited]);
    WorkerOneStep(s2, i, s3, 4);
    WorkerOneStep(s3, i, s4, 3);
    assert s5 == s.(workers := s.workers[i := Exited], dropped := s.dropped + multiset{});
    WorkerOneStep(s4, i, s5, 2);
  }

  lemma WorkerServes(s: State, s2: State, i: nat)
    requires i < |s.workers| && s.owner == Nobody && s2 == s.(workers := s.workers[i := TaskTake], owner := Worker(i))
    requires s.tasks != []
    ensures i < |WorkerAlone(s2, i, 5).workers|
    ensures var s7 := WorkerAlone(s2, i, 5); var t := s.tasks[0];
            && s7.owner == Nobody && s7.tasks == s.tasks[1..] && s7.taken == s.taken + [t]
            && (if s.running then
                  s7.workers[i] == LoopTest && s7.ran == s.ran + multiset{t} && s7.dropped == s.dropped
                else s7.workers[i] == Exited && s7.ran == s.ran && s7.dropped == s.dropped + multiset{t})
  {
    var ws, t := s.workers, s.tasks[0];
    var q := s.(tasks := s.tasks[1..], taken := s.taken + [t]);
    var s3 := q.(workers := ws[i := TaskNotify(t)], owner := Worker(i));
    WorkerOneStep(s2, i, s3, 4);
    WorkerHandsOver(q, s3, i, t);
    var s5 := q.(workers := ws[i := AfterTask(Some(t))], callers := WakeCaller(q.callers, SomeCaller(q.callers)));
    WorkerFinishes(s5, i, t);
  }

  // The notification and the release of the mutex.
  lemma WorkerHandsOver(s: State, s3: State, i: nat, t: nat)
    requires i < |s.workers| && s.owner == Nobody
    requires s3 == s.(workers := s.workers[i := TaskNotify(t)], owner := Worker(i))
    ensures var s5 := s.(workers := s.workers[i := AfterTask(Some(t))], callers := WakeCaller(s.callers, SomeCaller(s.callers)));
            WorkerAlone(s3, i, 4) == WorkerAlone(s5, i, 2)
  {
    var r := s.(callers := WakeCaller(s.callers, SomeCaller(s.callers)));
    var s4 := r.(workers := s.workers[i := TaskUnlock(Some(t))], owner := Worker(i));
    var s5 := r.(workers := s.workers[i := AfterTask(Some(t))]);
    WorkerOneStep(s3, i, s4, 3);
    WorkerOneStep(s4, i, s5, 2);
  }

  lemma WorkerFinishes(s: State, i: nat, t: nat)
    requires i < |s.workers| && s.workers[i] == AfterTask(Some(t))
    ensures WorkerAlone(s, i, 2) ==
            if s.running then s.(workers := s.workers[i := LoopTest], ran := s.ran + multiset{t})
            else s.(workers := s.workers[i := Exited], dropped := s.dropped + multiset{t})
  {
    if s.running {
      var s1 := s.(workers := s.workers[i := RunTask(t)]);
      WorkerOneStep(s, i, s1, 1);
      WorkerOneStep(s1, i, s.(workers := s.workers[i := LoopTest], ran := s.ran + multiset{t}), 0);
    } else {
      WorkerOneStep(s, i, s.(workers := s.workers[i := Exited], dropped := s.dropped + multiset{t}), 1);
    }
  }

  // ----- stop -----

  function StopAlone(s: State, n: nat): State
    decreases n
  {
    if n == 0 || !Enabled(s, StopStep) then s else StopAlone(StopNext(s), n - 1)
  }

  // Left alone, stop clears _running, wakes everybody, and waits for the first worker.
  lemma StopByItself(s: State)
    requires s.stop == NotStopped && s.owner == Nobody
    ensures StopAlone(s, 5) == s.(running := false, stop := Join(0),
                                  workers := WakeAllWorkers(s.workers), callers := WakeAllCallers(s.callers))
  {
    var s1 := StopNext(s);
    var s2 := StopNext(s1);
    var s3 := StopNext(s2);
    var s4 := StopNext(s3);
    assert StopAlone(s4, 1) == StopNext(s4);
    assert StopAlone(s3, 2) == StopAlone(s4, 1);
    assert StopAlone(s2, 3) == StopAlone(s3, 2);
    assert StopAlone(s1, 4) == StopAlone(s2, 3);
  }

  // Once all workers have left, stop returns.
  lemma {:induction false} StopReturns(s: State, next: nat)
    requires s.stop == Join(next) && next <= |s.workers|
    requires forall i :: 0 <= i < |s.workers| ==> s.workers[i] == Exited
    ensures StopAlone(s, |s.workers| - next + 1) == s.(stop := Stopped)
    decreases |s.workers| - next
  {
    if next < |s.workers| {
      StopReturns(StopNext(s), next + 1);
    } else {
      assert StopAlone(StopNext(s), 0) == StopNext(s);
    }
  }
}
