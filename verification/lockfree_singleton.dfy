// The lock-free singleton: any number of threads race to install the object they allocate with
// a compare-exchange that may also fail spuriously. Objects are named by the order in which
// they are allocated.
module LockfreeSingleton {
  import opened Options
  import opened Sequences

  // Where one call of get_object stands; `cached` is the local that compare_exchange_weak
  // overwrites when it fails.
  datatype Pc =
    | Start
    | Allocate
    | Exchange(obj: nat, cached: Option<nat>)
    | Compare(obj: nat, cached: Option<nat>)
    | Returned(obj: nat)

  datatype State = State(
    cachedObject: Option<nat>,
    threads: seq<Pc>,
    allocatedBy: seq<nat>,   // the thread that allocated each object
    deletions: seq<nat>)     // objects in the order of their deletion

  // `fails` is a spurious failure of the exchange.
  datatype Action = Step(i: nat, fails: bool)

  predicate Enabled(s: State, a: Action) {
    a.i < |s.threads| && !s.threads[a.i].Returned?
  }

  function Next(s: State, a: Action): State
    requires Enabled(s, a)
  {
    var ts, i := s.threads, a.i;
    match ts[i]
    case Start => s.(threads := ts[i := if s.cachedObject.Some? then Returned(s.cachedObject.value) else Allocate])
    case Allocate =>
      s.(threads := ts[i := Exchange(|s.allocatedBy|, None)], allocatedBy := s.allocatedBy + [i])
    case Exchange(obj, cached) =>
      if s.cachedObject == cached && !a.fails then
        s.(cachedObject := Some(obj), threads := ts[i := Compare(obj, cached)])
      else if s.cachedObject.None? then s.(threads := ts[i := Exchange(obj, None)])
      else s.(threads := ts[i := Compare(obj, s.cachedObject)])
    case Compare(obj, cached) =>
      if cached.Some? then
        s.(threads := ts[i := Returned(cached.value)], deletions := s.deletions + [obj])
      else s.(threads := ts[i := Returned(obj)])
    case Returned(_) => s
  }

  ghost predicate Init(s: State) {
    && s.cachedObject == None && s.allocatedBy == s.deletions == []
    && forall i :: 0 <= i < |s.threads| ==> s.threads[i] == Start
  }

  ghost predicate Run(run: seq<State>, acts: seq<Action>) {
    |run| == |acts| + 1 && Init(run[0]) && forall k :: 0 <= k < |acts| ==> StepAt(run, acts, k)
  }

  ghost predicate StepAt(run: seq<State>, acts: seq<Action>, k: nat)
    requires k < |acts| && |run| == |acts| + 1
  {
    Enabled(run[k], acts[k]) && run[k + 1] == Next(run[k], acts[k])
  }

  // What thread i may still do with the object it allocated.
  ghost predicate ThreadOk(s: State, i: nat)
    requires i < |s.threads|
  {
    match s.threads[i]
    case Exchange(obj, cached) =>
      && cached.None? && obj < |s.allocatedBy| && s.allocatedBy[obj] == i
      && s.cachedObject != Some(obj) && obj !in s.deletions
    case Compare(obj, cached) =>
      && obj < |s.allocatedBy| && s.allocatedBy[obj] == i && obj !in s.deletions
      && (if cached.Some? then s.cachedObject == cached && cached != Some(obj) else s.cachedObject == Some(obj))
    case Returned(obj) => s.cachedObject == Some(obj)
    case _ => i !in s.allocatedBy
  }

  // Each thread allocates at most once; an object is cached, still its creator's, or deleted.
  ghost predicate Inv(s: State) {
    && (forall i :: 0 <= i < |s.threads| ==> ThreadOk(s, i))
    && (forall o, p :: 0 <= o < p < |s.allocatedBy| ==> s.allocatedBy[o] != s.allocatedBy[p])
    && (forall o :: 0 <= o < |s.allocatedBy| ==> s.allocatedBy[o] < |s.threads|)
    && (s.cachedObject.Some? ==> s.cachedObject.value < |s.allocatedBy| && s.cachedObject.value !in s.deletions)
    && (forall j, k :: 0 <= j < k < |s.deletions| ==> s.deletions[j] != s.deletions[k])
    && (forall o :: o in s.deletions ==> o < |s.allocatedBy|)
    && (forall o :: 0 <= o < |s.allocatedBy| ==> Placed(s, o))
  }

  ghost predicate Placed(s: State, o: nat)
    requires o < |s.allocatedBy| && s.allocatedBy[o] < |s.threads|
  {
    || s.cachedObject == Some(o)
    || o in s.deletions
    || s.threads[s.allocatedBy[o]].Exchange?
    || s.threads[s.allocatedBy[o]].Compare?
  }

  lemma StepKeepsInv(s: State, a: Action)
    requires Enabled(s, a) && Inv(s)
    ensures Inv(Next(s, a))
  {
    var s2 := Next(s, a);
    assert ThreadOk(s, a.i);
    ThreadsKept(s, a);
    forall o | 0 <= o < |s2.allocatedBy| ensures Placed(s2, o) {
      if o < |s.allocatedBy| {
        assert Placed(s, o);
      }
    }
  }

  lemma ThreadsKept(s: State, a: Action)
    requires Enabled(s, a) && Inv(s)
    ensures forall i :: 0 <= i < |s.threads| ==> ThreadOk(Next(s, a), i)
  {
    assert ThreadOk(s, a.i);
    forall i | 0 <= i < |s.threads| ensures ThreadOk(Next(s, a), i) {
      assert ThreadOk(s, i);
    }
  }

  lemma {:induction false} EveryRunKeepsInv(run: seq<State>, acts: seq<Action>, k: nat)
    requires Run(run, acts) && k < |run|
    ensures Inv(run[k])
  {
    if k > 0 {
      EveryRunKeepsInv(run, acts, k - 1);
      assert StepAt(run, acts, k - 1);
      StepKeepsInv(run[k - 1], acts[k - 1]);
    }
  }

  // Once set, cached_object never changes again.
  lemma {:induction false} CachedOnce(run: seq<State>, acts: seq<Action>, k: nat, m: nat)
    requires Run(run, acts) && k <= m < |run| && run[k].cachedObject.Some?
    ensures run[m].cachedObject == run[k].cachedObject
  {
    if k < m {
      CachedOnce(run, acts, k, m - 1);
      EveryRunKeepsInv(run, acts, m - 1);
      assert StepAt(run, acts, m - 1);
      assert ThreadOk(run[m - 1], acts[m - 1].i);
    }
  }

  // All calls return the same object, in whatever states they return, and it is never deleted.
  lemma AllGetTheSame(run: seq<State>, acts: seq<Action>, k: nat, m: nat, i: nat, j: nat)
    requires Run(run, acts) && k <= m < |run|
    requires i < |run[k].threads| && run[k].threads[i].Returned?
    requires j < |run[m].threads| && run[m].threads[j].Returned?
    ensures run[k].threads[i].obj == run[m].threads[j].obj
    ensures run[k].threads[i].obj !in run[m].deletions
  {
    EveryRunKeepsInv(run, acts, k);
    EveryRunKeepsInv(run, acts, m);
    assert ThreadOk(run[k], i) && ThreadOk(run[m], j);
    CachedOnce(run, acts, k, m);
  }

  // A deletion is of an object the deleting thread allocated itself, which was still there.
  lemma CreatorsDelete(run: seq<State>, acts: seq<Action>, k: nat)
    requires Run(run, acts) && k < |acts|
    ensures run[k + 1].deletions == run[k].deletions ||
            exists o :: 0 <= o < |run[k].allocatedBy| && run[k].allocatedBy[o] == acts[k].i
                        && o !in run[k].deletions && run[k + 1].deletions == run[k].deletions + [o]
  {
    EveryRunKeepsInv(run, acts, k);
    assert StepAt(run, acts, k);
    assert ThreadOk(run[k], acts[k].i);
  }

  // When every call has returned, every object but the cached one has been deleted, exactly once.
  lemma NothingLeaks(run: seq<State>, acts: seq<Action>, k: nat, o: nat)
    requires Run(run, acts) && k < |run| && o < |run[k].allocatedBy|
    requires forall i :: 0 <= i < |run[k].threads| ==> run[k].threads[i].Returned?
    ensures var s := run[k];
            multiset(s.deletions)[o] == if s.cachedObject == Some(o) then 0 else 1
  {
    EveryRunKeepsInv(run, acts, k);
    assert Placed(run[k], o);
    DistinctOnce(run[k].deletions, o);
  }

  // A call that starts when the object is there allocates none.
  lemma {:induction false} LateCallsAllocateNothing(run: seq<State>, acts: seq<Action>, k: nat, m: nat, i: nat)
    requires Run(run, acts) && k <= m < |run| && run[k].cachedObject.Some?
    requires i < |run[k].threads| && run[k].threads[i] == Start
    ensures i < |run[m].threads| && i !in run[m].allocatedBy
    ensures run[m].threads[i] == Start || run[m].threads[i].Returned?
  {
    if k == m {
      EveryRunKeepsInv(run, acts, k);
      assert ThreadOk(run[k], i);
    } else {
      LateCallsAllocateNothing(run, acts, k, m - 1, i);
      CachedOnce(run, acts, k, m - 1);
      assert StepAt(run, acts, m - 1);
    }
  }

  // At most n steps of thread i with no other thread in between and no spurious failure.
  function Alone(s: State, i: nat, n: nat): (s2: State)
    requires i < |s.threads|
    ensures |s2.threads| == |s.threads|
    decreases n
  {
    if n == 0 || s.threads[i].Returned? then s else Alone(Next(s, Step(i, false)), i, n - 1)
  }

  // However often its exchange has failed so far, a call that is left alone returns within four
  // steps, with the cached object if there is one and else with an object of its own.
  lemma ReturnsAlone(s: State, i: nat)
    requires Inv(s) && i < |s.threads|
    ensures var s2 := Alone(s, i, 4);
            && s2.threads[i].Returned? && s2.cachedObject == Some(s2.threads[i].obj)
            && (s.cachedObject.Some? ==> s2.cachedObject == s.cachedObject)
            && (s.cachedObject.None? ==> s2.threads[i].obj < |s2.allocatedBy| && s2.allocatedBy[s2.threads[i].obj] == i)
  {
    AloneFor(s, i, 4);
  }

  // How many steps are left at most.
  function StepsLeft(pc: Pc): nat {
    match pc
    case Start => 4
    case Allocate => 3
    case Exchange(_, _) => 2
    case Compare(_, _) => 1
    case Returned(_) => 0
  }

  lemma {:induction false} AloneFor(s: State, i: nat, n: nat)
    requires Inv(s) && i < |s.threads| && StepsLeft(s.threads[i]) <= n
    ensures var s2 := Alone(s, i, n);
            && i < |s2.threads| && s2.threads[i].Returned? && s2.cachedObject == Some(s2.threads[i].obj)
            && (s.cachedObject.Some? ==> s2.cachedObject == s.cachedObject)
            && (s.cachedObject.None? ==> s2.threads[i].obj < |s2.allocatedBy| && s2.allocatedBy[s2.threads[i].obj] == i)
    decreases n
  {
    assert ThreadOk(s, i);
    if !s.threads[i].Returned? {
      var s1 := Next(s, Step(i, false));
      StepKeepsInv(s, Step(i, false));
      AloneFor(s1, i, n - 1);
      if s.cachedObject.None? && s1.cachedObject.Some? {
        OwnObjectStays(s1, i, n - 1);
      }
    }
  }

  lemma {:induction false} OwnObjectStays(s: State, i: nat, n: nat)
    requires Inv(s) && i < |s.threads| && s.threads[i].Compare? && s.threads[i].cached.None? && n > 0
    ensures Alone(s, i, n).allocatedBy == s.allocatedBy
  {
    var s1 := Next(s, Step(i, false));
    assert Alone(s1, i, n - 1) == s1;
  }
}
