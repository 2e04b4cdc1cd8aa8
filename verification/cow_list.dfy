// The copy-on-write list: post appends in place only when nobody else holds the list, and
// traverse walks a view it holds while more is being posted.
module CowList {

  // Who shares a list: the global pointer, or one reader's view.
  datatype Holder = Global | View(id: nat)

  // A list with its shared_ptr count, kept as the set of holders that are counted.
  class FooList {
    var items: seq<int>
    var holders: set<Holder>

    constructor (items: seq<int>, holders: set<Holder>)
      ensures this.items == items && this.holders == holders
    {
      this.items := items;
      this.holders := holders;
    }
  }

  // What another thread may do next: post, take a view or let go of the one it has. A reader that
  // already has a view takes no second one, and a reader without one has none to let go of.
  datatype Act = Posting(f: int) | Taking(id: nat) | Releasing(id: nat)

  class Board {
    var foos: FooList
    var views: map<nat, FooList>  // the view each reader holds
    ghost var lists: set<FooList>
    ghost var history: seq<int>   // every post, in the order of the mutex

    // Each list is counted by exactly those who hold it.
    ghost predicate Valid()
      reads this, lists
    {
      && foos in lists && views.Values <= lists
      && (forall l :: l in lists ==> (Global in l.holders <==> l == foos))
      && (forall l, id :: l in lists ==> (View(id) in l.holders <==> id in views && views[id] == l))
      && foos.items == history
    }

    constructor ()
      ensures Valid() && history == [] && views == map[] && fresh(lists)
    {
      var l := new FooList([], {Global});
      foos := l;
      views := map[];
      lists := {l};
      history := [];
    }

    // unique()
    predicate Unique()
      reads this, foos
    {
      |foos.holders| == 1
    }

    // The post is appended to the history, in place exactly when no reader holds the list; no
    // list that any reader holds changes.
    method Post(f: int)
      requires Valid()
      modifies this, lists
      ensures Valid() && fresh(lists - old(lists)) && old(lists) <= lists
      ensures history == old(history) + [f] && views == old(views)
      ensures if forall id :: id in old(views) ==> old(views)[id] != old(foos) then foos == old(foos) else fresh(foos)
      ensures forall id :: id in views ==> views[id].items == old(views[id].items)
    {
      SharedExactly(old(foos.holders));
      if !Unique() {
        var l := new FooList(foos.items, {Global});
        foos.holders := foos.holders - {Global};
        foos := l;
        lists := lists + {l};
      } else {
        OneHolder(foos.holders, Global);
      }
      foos.items := foos.items + [f];
      history := history + [f];
    }

    // The locked part of traverse.
    method TakeView(id: nat) returns (view: FooList)
      requires Valid() && id !in views
      modifies this`views, lists`holders
      ensures Valid() && view == foos && view.items == history
      ensures views == old(views)[id := view]
    {
      view := foos;
      view.holders := view.holders + {View(id)};
      views := views[id := view];
      if Unique() {
        OneHolder(foos.holders, Global);
        assert false;
      }
    }

    method ReleaseView(id: nat)
      requires Valid() && id in views
      modifies this`views, lists`holders
      ensures Valid() && views == old(views) - {id}
    {
      var view := views[id];
      view.holders := view.holders - {View(id)};
      views := views - {id};
    }

    // Whatever other threads do while reader `me` is between two steps.
    method OthersAct(me: nat, acts: seq<Act>)
      requires Valid() && me in views
      modifies this, lists
      ensures Valid() && fresh(lists - old(lists)) && old(lists) <= lists
      ensures me in views && views[me] == old(views[me]) && views[me].items == old(views[me].items)
      ensures history == old(history) + Posted(acts)
      ensures views.Keys == ReadersAfter(old(views).Keys, me, acts)
    {
      for k := 0 to |acts|
        invariant Valid() && fresh(lists - old(lists)) && old(lists) <= lists
        invariant me in views && views[me] == old(views[me]) && views[me].items == old(views[me].items)
        invariant history == old(history) + Posted(acts[..k])
        invariant views.Keys == ReadersAfter(old(views).Keys, me, acts[..k])
      {
        assert acts[..k + 1][..k] == acts[..k];
        match acts[k]
        case Posting(f) => Post(f);
        case Taking(id) =>
          if id !in views {
            var _ := TakeView(id);
          }
        case Releasing(id) =>
          if id != me && id in views {
            ReleaseView(id);
          }
      }
      assert acts[..|acts|] == acts;
    }

    // One element's turn: other threads act, then its doit posts.
    method Visit(me: nat, k: nat, doit: int -> int, acts: seq<Act>) returns (f: int)
      requires Valid() && me in views && k < |views[me].items|
      modifies this, lists
      ensures Valid() && fresh(lists - old(lists)) && old(lists) <= lists
      ensures me in views && views[me] == old(views[me]) && views[me].items == old(views[me].items)
      ensures f == views[me].items[k] && history == old(history) + Posted(acts) + [doit(f)]
    {
      OthersAct(me, acts);
      f := views[me].items[k];
      Post(doit(f));
    }

    // traverse visits exactly what the list held when the view was taken, and comes to an end,
    // although every visit posts an element (what it posts is doit's) and before the k-th visit
    // other threads do others(k): post, start traversals of their own, and end them.
    method Traverse(me: nat, doit: int -> int, others: nat -> seq<Act>) returns (visited: seq<int>)
      requires Valid() && me !in views
      modifies this, lists
      ensures Valid() && me !in views
      ensures visited == old(history)
      ensures history == old(history) + Posts(visited, doit, others)
    {
      var view := TakeView(me);
      visited := [];
      var k := 0;
      while k < |view.items|
        invariant Valid() && fresh(lists - old(lists)) && old(lists) <= lists
        invariant me in views && views[me] == view && view.items == old(history)
        invariant k <= |view.items| && visited == old(history)[..k]
        invariant history == old(history) + Posts(visited, doit, others)
        decreases |old(history)| - k
      {
        var f := Visit(me, k, doit, others(k));
        PostsOneMore(old(history), visited, f, doit, others);
        visited, k := visited + [f], k + 1;
      }
      ReleaseView(me);
    }
  }

  // Who holds a view after other threads have acted: none of them ends reader me's.
  function ReadersAfter(ids: set<nat>, me: nat, acts: seq<Act>): set<nat> {
    if acts == [] then ids
    else
      var k := |acts| - 1;
      var before := ReadersAfter(ids, me, acts[..k]);
      match acts[k]
      case Posting(_) => before
      case Taking(id) => before + {id}
      case Releasing(id) => if id == me then before else before - {id}
  }

  // What the acts of other threads add to the list.
  function Posted(acts: seq<Act>): seq<int> {
    if acts == [] then []
    else
      var k := |acts| - 1;
      Posted(acts[..k]) + if acts[k].Posting? then [acts[k].f] else []
  }

  // What is posted while the given elements are visited.
  function Posts(visited: seq<int>, doit: int -> int, others: nat -> seq<Act>): seq<int> {
    if visited == [] then []
    else
      var k := |visited| - 1;
      Posts(visited[..k], doit, others) + Posted(others(k)) + [doit(visited[k])]
  }

  lemma PostsOneMore(h: seq<int>, visited: seq<int>, f: int, doit: int -> int, others: nat -> seq<Act>)
    ensures h + Posts(visited, doit, others) + Posted(others(|visited|)) + [doit(f)]
            == h + Posts(visited + [f], doit, others)
  {
    var all := visited + [f];
    assert all[..|visited|] == visited && all[|visited|] == f;
    var mine, theirs := Posts(visited, doit, others), Posted(others(|visited|));
    assert Posts(all, doit, others) == mine + theirs + [doit(f)];
    Regroup(h, mine, theirs, [doit(f)]);
  }

  lemma Regroup(a: seq<int>, b: seq<int>, c: seq<int>, d: seq<int>)
    ensures a + b + c + d == a + (b + c + d)
  {
  }

  lemma SharedExactly(s: set<Holder>)
    requires Global in s
    ensures |s| == 1 <==> forall id :: View(id) !in s
  {
    if |s| == 1 {
      OneHolder(s, Global);
    } else {
      var others := s - {Global};
      assert |others| > 0;
      var h :| h in others;
      match h
      case View(id) => assert View(id) in s;
      case Global =>
    }
  }

  lemma OneHolder(s: set<Holder>, x: Holder)
    requires |s| == 1 && x in s
    ensures s == {x}
  {
    assert |s - {x}| == 0;
  }
}
