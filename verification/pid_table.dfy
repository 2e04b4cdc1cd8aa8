// The pid hash table: buckets of singly linked nodes, each with a back reference to the one
// cell that points to it. The table stands for one list of live processes, newest first.
module PidTable {

  const SIZE: nat := 2048

  // The address stored in pprev: a bucket's `first`, or some node's `next`.
  datatype Cell = First(b: nat) | Next(p: Process)

  // A process with its hlist_node; container_of between the two is the identity here.
  class Process {
    const pid: nat
    var next: Process?
    var pprev: Cell

    constructor (pid: nat)
      ensures this.pid == pid
    {
      this.pid := pid;
      next := null;
      pprev := First(0);
    }
  }

  // ----- the list of live processes -----

  function InBucket(hash: nat -> nat, procs: seq<Process>, b: nat): (c: seq<Process>)
    ensures forall p :: p in c ==> p in procs
  {
    if procs == [] then []
    else if hash(procs[0].pid) == b then [procs[0]] + InBucket(hash, procs[1..], b)
    else InBucket(hash, procs[1..], b)
  }

  // The most recently created live process with this pid.
  function Newest(procs: seq<Process>, pid: nat): Process? {
    if procs == [] then null
    else if procs[0].pid == pid then procs[0]
    else Newest(procs[1..], pid)
  }

  // No live process with this pid is newer than p, which is null when there is none.
  ghost predicate IsNewest(procs: seq<Process>, pid: nat, p: Process?) {
    if p == null then forall q :: q in procs ==> q.pid != pid
    else exists i :: 0 <= i < |procs| && procs[i] == p && p.pid == pid && forall j :: 0 <= j < i ==> procs[j].pid != pid
  }

  lemma {:induction false} NewestIsNewest(procs: seq<Process>, pid: nat)
    ensures IsNewest(procs, pid, Newest(procs, pid))
  {
    if procs != [] && procs[0].pid != pid {
      NewestIsNewest(procs[1..], pid);
      var p := Newest(procs, pid);
      if p == null {
        assert procs == [procs[0]] + procs[1..];
      } else {
        var i :| 0 <= i < |procs[1..]| && procs[1..][i] == p && forall j :: 0 <= j < i ==> procs[1..][j].pid != pid;
        assert procs[i + 1] == p && forall j :: 0 < j < i + 1 ==> procs[j] == procs[1..][j - 1];
      }
    }
  }

  function Without(procs: seq<Process>, p: Process): seq<Process> {
    if procs == [] then []
    else if procs[0] == p then procs[1..]
    else [procs[0]] + Without(procs[1..], p)
  }

  ghost predicate Distinct(procs: seq<Process>) {
    forall i, j :: 0 <= i < j < |procs| ==> procs[i] != procs[j]
  }

  lemma {:induction false} InBucketMembers(hash: nat -> nat, procs: seq<Process>, b: nat)
    ensures forall p :: p in InBucket(hash, procs, b) <==> p in procs && hash(p.pid) == b
  {
    if procs != [] {
      InBucketMembers(hash, procs[1..], b);
      assert procs == [procs[0]] + procs[1..];
    }
  }

  lemma {:induction false} InBucketDistinct(hash: nat -> nat, procs: seq<Process>, b: nat)
    requires Distinct(procs)
    ensures Distinct(InBucket(hash, procs, b))
  {
    if procs != [] {
      InBucketDistinct(hash, procs[1..], b);
      InBucketMembers(hash, procs[1..], b);
    }
  }

  lemma {:induction false} WithoutMembers(procs: seq<Process>, p: Process)
    requires Distinct(procs)
    ensures forall q :: q in Without(procs, p) <==> q in procs && q != p
    ensures Distinct(Without(procs, p))
    ensures p in procs ==> multiset(procs) == multiset(Without(procs, p)) + multiset{p}
    ensures p in procs ==> |Without(procs, p)| == |procs| - 1
    ensures p !in procs ==> Without(procs, p) == procs
  {
    if procs != [] && procs[0] != p {
      var rest := procs[1..];
      WithoutMembers(rest, p);
      assert procs == [procs[0]] + rest;
      DistinctCons(procs[0], Without(rest, p));
    } else if procs != [] {
      assert procs == [p] + procs[1..];
    }
  }

  lemma DistinctCons(p: Process, rest: seq<Process>)
    requires Distinct(rest) && p !in rest
    ensures Distinct([p] + rest)
  {
  }

  // Taking a process out of the list takes it out of its own bucket's chain and no other.
  lemma {:induction false} InBucketWithout(hash: nat -> nat, procs: seq<Process>, p: Process, b: nat)
    ensures InBucket(hash, Without(procs, p), b) ==
            if hash(p.pid) == b then Without(InBucket(hash, procs, b), p) else InBucket(hash, procs, b)
  {
    if procs != [] {
      InBucketWithout(hash, procs[1..], p, b);
      if procs[0] != p {
        assert Without(procs, p)[1..] == Without(procs[1..], p);
      }
    }
  }

  lemma {:induction false} NewestInBucket(hash: nat -> nat, procs: seq<Process>, pid: nat)
    ensures Newest(InBucket(hash, procs, hash(pid)), pid) == Newest(procs, pid)
  {
    if procs != [] {
      NewestInBucket(hash, procs[1..], pid);
      var c := InBucket(hash, procs, hash(pid));
      if hash(procs[0].pid) == hash(pid) {
        assert c[1..] == InBucket(hash, procs[1..], hash(pid));
      }
    }
  }

  // ----- the linked cells -----

  ghost function Nodes(c: seq<Process>): set<Process> {
    set p | p in c
  }

  function NodeAt(c: seq<Process>, k: nat): Process? {
    if k < |c| then c[k] else null
  }

  function CellBefore(c: seq<Process>, b: nat, k: nat): Cell
    requires k < |c|
  {
    if k == 0 then First(b) else Next(c[k - 1])
  }

  // Bucket b's cells spell out the chain c, and each node's pprev names the one cell that
  // points to it.
  ghost predicate Linked(buckets: array<Process?>, b: nat, c: seq<Process>)
    requires b < buckets.Length
    reads buckets, Nodes(c)
  {
    && buckets[b] == NodeAt(c, 0)
    && (forall k :: 0 <= k < |c| ==> c[k].next == NodeAt(c, k + 1))
    && (forall k :: 0 <= k < |c| ==> c[k].pprev == CellBefore(c, b, k))
  }

  method HlistAddHead(buckets: array<Process?>, n: Process, b: nat, ghost c: seq<Process>, ghost d: seq<Process>)
    requires b < buckets.Length && Linked(buckets, b, c) && Distinct(c) && n !in c
    requires Puts(c, n, d)
    modifies buckets, n, Nodes(c)
    ensures Linked(buckets, b, d)
    ensures forall b2 :: 0 <= b2 < buckets.Length && b2 != b ==> buckets[b2] == old(buckets[b2])
  {
    var first := buckets[b];
    n.next := first;
    if first != null {
      first.pprev := Next(n);
    }
    buckets[b] := n;
    n.pprev := First(b);
  }

  // d is c with n in front.
  ghost predicate Puts(c: seq<Process>, n: Process, d: seq<Process>) {
    |d| == |c| + 1 && d[0] == n && forall k :: 1 <= k < |d| ==> d[k] == c[k - 1]
  }

  // d is c without its k-th node.
  ghost predicate Drops(c: seq<Process>, k: nat, d: seq<Process>) {
    k < |c| == |d| + 1 && forall j :: 0 <= j < |d| ==> d[j] == if j < k then c[j] else c[j + 1]
  }

  method HlistDel(buckets: array<Process?>, n: Process,
                  ghost b: nat, ghost c: seq<Process>, ghost k: nat, ghost d: seq<Process>)
    requires b < buckets.Length && Linked(buckets, b, c) && Distinct(c)
    requires Drops(c, k, d) && c[k] == n
    modifies buckets, Nodes(c)
    ensures Linked(buckets, b, d)
    ensures forall b2 :: 0 <= b2 < buckets.Length && b2 != b ==> buckets[b2] == old(buckets[b2])
  {
    var next := n.next;
    var pprev := n.pprev;
    assert next == NodeAt(c, k + 1) && pprev == CellBefore(c, b, k);
    match pprev {
      case First(b') => buckets[b'] := next;
      case Next(p) => p.next := next;
    }
    if next != null {
      next.pprev := pprev;
    }
    forall j | 0 <= j < |d| ensures d[j].next == NodeAt(d, j + 1) && d[j].pprev == CellBefore(d, b, j) {
      if j + 1 < k {
        assert d[j] == c[j] && NodeAt(d, j + 1) == NodeAt(c, j + 1);
      } else if j >= k {
        assert d[j] == c[j + 1];
      }
    }
  }

  lemma {:induction false} WithoutAt(c: seq<Process>, p: Process, k: nat)
    requires k < |c| && c[k] == p && Distinct(c)
    ensures Without(c, p) == c[..k] + c[k + 1..]
  {
    if k > 0 {
      WithoutAt(c[1..], p, k - 1);
      assert c[1..][..k - 1] == c[1..k] && c[1..][k..] == c[k + 1..];
    }
  }

  // What taking p out of the list means for the chains.
  lemma ChainWithout(hash: nat -> nat, procs: seq<Process>, p: Process) returns (k: nat)
    requires Distinct(procs) && p in procs
    ensures var c := InBucket(hash, procs, hash(p.pid));
            && Distinct(c) && k < |c| && c[k] == p && Drops(c, k, Without(c, p))
            && (forall q :: q in c ==> q in procs && hash(q.pid) == hash(p.pid))
    ensures forall b :: InBucket(hash, Without(procs, p), b) ==
                        if hash(p.pid) == b then Without(InBucket(hash, procs, b), p) else InBucket(hash, procs, b)
    ensures Distinct(Without(procs, p)) && forall q :: q in Without(procs, p) <==> q in procs && q != p
  {
    var c := InBucket(hash, procs, hash(p.pid));
    InBucketMembers(hash, procs, hash(p.pid));
    InBucketDistinct(hash, procs, hash(p.pid));
    k :| 0 <= k < |c| && c[k] == p;
    WithoutDrops(c, p, k);
    WithoutMembers(procs, p);
    InBucketsWithout(hash, procs, p);
  }

  lemma InBucketsWithout(hash: nat -> nat, procs: seq<Process>, p: Process)
    ensures forall b :: InBucket(hash, Without(procs, p), b) ==
                        if hash(p.pid) == b then Without(InBucket(hash, procs, b), p) else InBucket(hash, procs, b)
  {
    forall b: nat ensures InBucket(hash, Without(procs, p), b) ==
                     if hash(p.pid) == b then Without(InBucket(hash, procs, b), p) else InBucket(hash, procs, b)
    {
      InBucketWithout(hash, procs, p, b);
    }
  }

  // Node k of a chain without repeats is the one that Without takes out.
  lemma WithoutDrops(c: seq<Process>, p: Process, k: nat)
    requires k < |c| && c[k] == p && Distinct(c)
    ensures Drops(c, k, Without(c, p))
  {
    WithoutAt(c, p, k);
    CutDrops(c, k);
  }

  lemma CutDrops(c: seq<Process>, k: nat)
    requires k < |c|
    ensures Drops(c, k, c[..k] + c[k + 1..])
  {
  }

  class Table {
    const hash: nat -> nat
    const buckets: array<Process?>
    ghost var procs: seq<Process>    // live processes, newest first
    ghost var deleted: seq<Process>  // in the order of their deletion

    ghost predicate Valid()
      reads this, buckets, Nodes(procs)
    {
      && buckets.Length == SIZE
      && (forall pid: nat :: hash(pid) < SIZE)
      && Distinct(procs)
      && (forall b :: 0 <= b < SIZE ==> Chain(b))
    }

    ghost predicate Chain(b: nat)
      requires b < buckets.Length
      reads this, buckets, Nodes(procs)
    {
      Linked(buckets, b, InBucket(hash, procs, b))
    }

    constructor (hash: nat -> nat)
      requires forall pid: nat :: hash(pid) < SIZE
      ensures Valid() && procs == [] && deleted == [] && this.hash == hash && fresh(buckets)
    {
      this.hash := hash;
      buckets := new Process?[SIZE](_ => null);
      procs, deleted := [], [];
    }

    // A chain whose cells were not written stays linked.
    twostate lemma ChainStays(b: nat)
      requires b < buckets.Length && old(Chain(b))
      requires InBucket(hash, procs, b) == InBucket(hash, old(procs), b) && buckets[b] == old(buckets[b])
      requires forall p :: p in InBucket(hash, procs, b) ==> p.next == old(p.next) && p.pprev == old(p.pprev)
      ensures Chain(b)
    {
    }

    method CreateProcess(pid: nat) returns (p: Process)
      requires Valid()
      modifies this`procs, buckets, Nodes(procs)
      ensures Valid() && fresh(p) && p.pid == pid && procs == [p] + old(procs)
    {
      p := new Process(pid);
      var b := hash(pid);
      ghost var c := InBucket(hash, procs, b);
      assert Chain(b);
      InBucketMembers(hash, procs, b);
      InBucketDistinct(hash, procs, b);
      HlistAddHead(buckets, p, b, c, [p] + c);
      procs := [p] + procs;
      assert procs[1..] == old(procs);
      forall b2: nat | b2 < SIZE ensures Chain(b2) {
        if b2 != b {
          assert old(Chain(b2));
          InBucketMembers(hash, old(procs), b2);
          assert InBucket(hash, procs, b2) == InBucket(hash, old(procs), b2);
          assert forall q :: q in InBucket(hash, procs, b2) ==> q != p && q !in c;
          ChainStays(b2);
        }
      }
    }

    // The newest live process with this pid, or null when there is none.
    method FindProcess(pid: nat) returns (p: Process?)
      requires Valid()
      ensures p == Newest(procs, pid) && IsNewest(procs, pid, p)
    {
      NewestIsNewest(procs, pid);
      var b := hash(pid);
      ghost var c := InBucket(hash, procs, b);
      assert Chain(b);
      ghost var k := 0;
      NewestInBucket(hash, procs, pid);
      assert c[0..] == c;
      p := buckets[b];
      while p != null
        invariant k <= |c| && p == NodeAt(c, k)
        invariant Newest(c[k..], pid) == Newest(c, pid)
        decreases |c| - k
      {
        assert c[k..][1..] == c[k + 1..];
        if p.pid == pid {
          return;
        }
        p := p.next;
        k := k + 1;
      }
    }

    // hlist_del and delete: exactly this process goes.
    method Release(p: Process)
      requires Valid() && p in procs
      modifies this`procs, this`deleted, buckets, Nodes(procs)
      ensures Valid() && procs == Without(old(procs), p) && deleted == old(deleted) + [p]
    {
      ghost var b := hash(p.pid);
      ghost var c := InBucket(hash, procs, b);
      assert Chain(b);
      ghost var k := ChainWithout(hash, procs, p);
      HlistDel(buckets, p, b, c, k, Without(c, p));
      procs := Without(procs, p);
      deleted := deleted + [p];
      forall b2: nat | b2 < SIZE ensures Chain(b2) {
        if b2 != b {
          assert old(Chain(b2));
          InBucketMembers(hash, old(procs), b2);
          ChainStays(b2);
        }
      }
    }

    method DelProcess(pid: nat)
      requires Valid()
      modifies this`procs, this`deleted, buckets, Nodes(procs)
      ensures Valid()
      ensures var p := Newest(old(procs), pid);
              IsNewest(old(procs), pid, p) &&
              if p == null then procs == old(procs) && deleted == old(deleted)
              else procs == Without(old(procs), p) && deleted == old(deleted) + [p]
    {
      var p := FindProcess(pid);
      if p != null {
        NewestIsLive(procs, pid);
        Release(p);
      }
    }

    // The inner loop of free_table: chain b goes, from its first node on.
    method FreeBucket(b: nat)
      requires Valid() && b < SIZE
      modifies this`procs, this`deleted, buckets, Nodes(procs)
      ensures Valid() && Nodes(procs) <= old(Nodes(procs)) && old(deleted) <= deleted
      ensures InBucket(hash, procs, b) == []
      ensures forall b2 :: b2 != b ==> InBucket(hash, procs, b2) == InBucket(hash, old(procs), b2)
      ensures multiset(deleted) + multiset(procs) == multiset(old(deleted)) + multiset(old(procs))
    {
      assert Chain(b);
      var n := buckets[b];
      while n != null
        invariant Valid() && Nodes(procs) <= old(Nodes(procs)) && old(deleted) <= deleted
        invariant n == NodeAt(InBucket(hash, procs, b), 0)
        invariant forall b2 :: b2 != b ==> InBucket(hash, procs, b2) == InBucket(hash, old(procs), b2)
        invariant multiset(deleted) + multiset(procs) == multiset(old(deleted)) + multiset(old(procs))
        decreases |procs|
      {
        assert Chain(b);
        FirstReleased(hash, procs, b);
        assert forall q :: q in Nodes(Without(procs, n)) ==> q in Nodes(procs);
        var nn := n.next;
        Release(n);
        n := nn;
      }
    }

    // Every live process is unlinked and deleted, each exactly once.
    method FreeTable()
      requires Valid()
      modifies this`procs, this`deleted, buckets, Nodes(procs)
      ensures Valid() && procs == []
      ensures old(deleted) <= deleted && |deleted| == |old(deleted)| + |old(procs)|
      ensures multiset(deleted[|old(deleted)|..]) == multiset(old(procs))
    {
      for i := 0 to SIZE
        invariant Valid() && Nodes(procs) <= old(Nodes(procs))
        invariant forall b :: 0 <= b < i ==> InBucket(hash, procs, b) == []
        invariant old(deleted) <= deleted
        invariant multiset(deleted) + multiset(procs) == multiset(old(deleted)) + multiset(old(procs))
      {
        FreeBucket(i);
      }
      if procs != [] {
        InBucketMembers(hash, procs, hash(procs[0].pid));
      }
      Appended(old(deleted), deleted, old(procs));
    }
  }

  lemma FirstReleased(hash: nat -> nat, procs: seq<Process>, b: nat)
    requires Distinct(procs) && InBucket(hash, procs, b) != []
    ensures var c := InBucket(hash, procs, b); c[0] in procs && hash(c[0].pid) == b
    ensures var c := InBucket(hash, procs, b); var rest := Without(procs, c[0]);
            && InBucket(hash, rest, b) == c[1..]
            && (forall b2 :: b2 != b ==> InBucket(hash, rest, b2) == InBucket(hash, procs, b2))
            && multiset(procs) == multiset(rest) + multiset{c[0]} && |rest| < |procs|
            && (forall q :: q in rest ==> q in procs)
  {
    var c := InBucket(hash, procs, b);
    FirstInBucket(hash, procs, b);
    InBucketsWithout(hash, procs, c[0]);
    WithoutMembers(procs, c[0]);
    WithoutFirst(c);
  }

  lemma FirstInBucket(hash: nat -> nat, procs: seq<Process>, b: nat)
    requires InBucket(hash, procs, b) != []
    ensures var p := InBucket(hash, procs, b)[0]; p in procs && hash(p.pid) == b
  {
    InBucketMembers(hash, procs, b);
    assert InBucket(hash, procs, b)[0] in InBucket(hash, procs, b);
  }

  lemma WithoutFirst(c: seq<Process>)
    requires c != []
    ensures Without(c, c[0]) == c[1..]
  {
  }

  lemma Appended(xs: seq<Process>, ys: seq<Process>, more: seq<Process>)
    requires xs <= ys && multiset(ys) == multiset(xs) + multiset(more)
    ensures multiset(ys[|xs|..]) == multiset(more) && |ys| == |xs| + |more|
  {
    var tail := ys[|xs|..];
    assert ys == xs + tail;
    assert multiset(ys) == multiset(xs) + multiset(tail);
    assert multiset(tail) == multiset(ys) - multiset(xs) == multiset(more);
    assert |multiset(tail)| == |tail| && |multiset(more)| == |more|;
  }

  lemma {:induction false} NewestIsLive(procs: seq<Process>, pid: nat)
    ensures Newest(procs, pid) != null ==> Newest(procs, pid) in procs && Newest(procs, pid).pid == pid
    ensures Newest(procs, pid) == null ==> forall p :: p in procs ==> p.pid != pid
  {
    if procs != [] {
      NewestIsLive(procs[1..], pid);
      assert procs == [procs[0]] + procs[1..];
    }
  }
}
