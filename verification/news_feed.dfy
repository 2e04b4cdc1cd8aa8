// The news feed: each user's tweets in posting order, and a merge of the followees' tweets that
// takes the ten newest.
module NewsFeed {

  const FEED_MAX: nat := 10

  datatype User = User(id: int)

  datatype Post = Post(time: int, id: int)

  // A post named by its author and its place in the author's table.
  datatype PostRef = PostRef(user: User, i: nat)

  type Followees = map<User, set<User>>
  type Tweets = map<User, seq<Post>>

  // operator[] of the maps: a missing entry comes into being empty.
  function Followed(f: Followees, user: User): set<User> {
    if user in f then f[user] else {}
  }

  function Table(t: Tweets, user: User): seq<Post> {
    if user in t then t[user] else []
  }

  predicate IsPost(t: Tweets, us: set<User>, p: PostRef) {
    p.user in us && p.i < |Table(t, p.user)|
  }

  function Posts(t: Tweets, us: set<User>): set<PostRef> {
    set u, i | u in us && 0 <= i < |Table(t, u)| :: PostRef(u, i)
  }

  function Time(t: Tweets, p: PostRef): int {
    if p.i < |Table(t, p.user)| then Table(t, p.user)[p.i].time else 0
  }

  // Every user's tweets carry non-decreasing times.
  ghost predicate Chronological(t: Tweets) {
    forall u, i, j :: u in t && 0 <= i <= j < |t[u]| ==> t[u][i].time <= t[u][j].time
  }

  ghost predicate Distinct(ps: seq<PostRef>) {
    forall j, k :: 0 <= j < k < |ps| ==> ps[j] != ps[k]
  }

  // Newest first.
  ghost predicate NewestFirst(t: Tweets, ps: seq<PostRef>) {
    forall j, k :: 0 <= j <= k < |ps| ==> Time(t, ps[j]) >= Time(t, ps[k])
  }

  // No post left out is newer than one taken.
  ghost predicate TakesNewest(t: Tweets, us: set<User>, ps: seq<PostRef>) {
    forall p, k :: IsPost(t, us, p) && p !in ps && 0 <= k < |ps| ==> Time(t, p) <= Time(t, ps[k])
  }

  ghost predicate ArePosts(t: Tweets, us: set<User>, ps: seq<PostRef>) {
    Distinct(ps) && forall p :: p in ps ==> IsPost(t, us, p)
  }

  // The ids of the posts taken.
  ghost predicate Shows(t: Tweets, ps: seq<PostRef>, feed: seq<int>) {
    |feed| == |ps| &&
    forall k :: 0 <= k < |ps| ==> ps[k].i < |Table(t, ps[k].user)| && feed[k] == Table(t, ps[k].user)[ps[k].i].id
  }

  // ----- the merge agrees with sorting everything and taking the first ten -----

  lemma {:induction false} FitsIn(xs: seq<PostRef>, ys: seq<PostRef>)
    requires Distinct(xs) && forall x :: x in xs ==> x in ys
    ensures |xs| <= |ys|
    decreases |xs|
  {
    if xs != [] {
      var x := xs[|xs| - 1];
      assert x in xs;
      var k :| 0 <= k < |ys| && ys[k] == x;
      var rest := ys[..k] + ys[k + 1..];
      forall z | z in xs[..|xs| - 1] ensures z in rest {
        assert z in xs && z != x;
        var j :| 0 <= j < |ys| && ys[j] == z;
        assert z == if j < k then rest[j] else rest[j - 1];
      }
      FitsIn(xs[..|xs| - 1], rest);
    }
  }

  lemma FeedIsTopOfSorted(t: Tweets, us: set<User>, taken: seq<PostRef>, sorted: seq<PostRef>, k: nat)
    requires ArePosts(t, us, taken) && NewestFirst(t, taken) && TakesNewest(t, us, taken)
    requires ArePosts(t, us, sorted) && NewestFirst(t, sorted) && (forall p :: IsPost(t, us, p) ==> p in sorted)
    requires k < |taken|
    ensures k < |sorted| && Time(t, taken[k]) == Time(t, sorted[k])
  {
    FitsIn(taken, sorted);
    if Time(t, sorted[k]) > Time(t, taken[k]) {
      forall p | p in sorted[..k + 1] ensures p in taken[..k] {
        assert p in sorted && IsPost(t, us, p) && Time(t, p) >= Time(t, sorted[k]);
        assert p in taken;
        var j :| 0 <= j < |taken| && taken[j] == p;
        assert taken[..k][j] == p;
      }
      FitsIn(sorted[..k + 1], taken[..k]);
    } else if Time(t, sorted[k]) < Time(t, taken[k]) {
      forall p | p in taken[..k + 1] ensures p in sorted[..k] {
        assert p in taken && IsPost(t, us, p) && Time(t, p) >= Time(t, taken[k]);
        var j :| 0 <= j < |sorted| && sorted[j] == p;
        assert sorted[..k][j] == p;
      }
      FitsIn(taken[..k + 1], sorted[..k]);
    }
  }

  // With no two posts at the same time the feed is exactly the first part of the sorted list.
  lemma FeedIsPrefixOfSorted(t: Tweets, us: set<User>, taken: seq<PostRef>, sorted: seq<PostRef>)
    requires ArePosts(t, us, taken) && NewestFirst(t, taken) && TakesNewest(t, us, taken)
    requires ArePosts(t, us, sorted) && NewestFirst(t, sorted) && (forall p :: IsPost(t, us, p) ==> p in sorted)
    requires forall p, q :: IsPost(t, us, p) && IsPost(t, us, q) && Time(t, p) == Time(t, q) ==> p == q
    ensures taken <= sorted
  {
    FitsIn(taken, sorted);
    forall k | 0 <= k < |taken| ensures taken[k] == sorted[k] {
      FeedIsTopOfSorted(t, us, taken, sorted, k);
      assert taken[k] in taken && sorted[k] in sorted;
    }
  }

  // ----- the merge itself -----

  // The priority queue: for each user in it, the place of that user's newest post not taken.
  type Queue = map<User, nat>

  ghost predicate Waiting(q: Queue, p: PostRef) {
    p.user in q && p.i <= q[p.user]
  }

  // The queue holds, per user, exactly the posts not taken yet.
  ghost predicate Merging(t: Tweets, us: set<User>, q: Queue, taken: seq<PostRef>) {
    && ArePosts(t, us, taken)
    && (forall u :: u in q ==> IsPost(t, us, PostRef(u, q[u])))
    && (forall p :: IsPost(t, us, p) ==> (p in taken <==> !Waiting(q, p)))
  }

  ghost predicate Sorted(t: Tweets, us: set<User>, taken: seq<PostRef>) {
    NewestFirst(t, taken) && TakesNewest(t, us, taken)
  }

  function Popped(q: Queue, u: User): Queue
    requires u in q
  {
    if q[u] == 0 then q - {u} else q[u := q[u] - 1]
  }

  lemma MergeStep(t: Tweets, us: set<User>, q: Queue, taken: seq<PostRef>, u: User)
    requires Merging(t, us, q, taken) && u in q
    ensures Merging(t, us, Popped(q, u), taken + [PostRef(u, q[u])])
  {
    var p := PostRef(u, q[u]);
    assert p !in taken;
    forall x | IsPost(t, us, x) ensures x in taken + [p] <==> !Waiting(Popped(q, u), x) {
      assert x in taken + [p] <==> x in taken || x == p;
    }
  }

  // Taking a post with the latest time in the queue keeps the feed sorted.
  lemma SortedStep(t: Tweets, us: set<User>, q: Queue, taken: seq<PostRef>, u: User)
    requires Merging(t, us, q, taken) && u in q && Chronological(t) && Sorted(t, us, taken)
    requires forall v :: v in q ==> Time(t, PostRef(v, q[v])) <= Time(t, PostRef(u, q[u]))
    ensures Sorted(t, us, taken + [PostRef(u, q[u])])
  {
    var p := PostRef(u, q[u]);
    forall x | IsPost(t, us, x) && x !in taken ensures Time(t, x) <= Time(t, p) {
      assert Waiting(q, x);
      assert Time(t, x) <= Time(t, PostRef(x.user, q[x.user]));
    }
    assert p !in taken;
    assert forall x :: x in taken + [p] <==> x in taken || x == p;
  }

  // The state of the loop: posts taken so far, the feed they make, and the queue of the rest.
  ghost predicate Merged(t: Tweets, us: set<User>, q: Queue, taken: seq<PostRef>, feed: seq<int>) {
    Merging(t, us, q, taken) && Shows(t, taken, feed) && (Chronological(t) ==> Sorted(t, us, taken))
  }

  // u's entry is a possible top of the priority queue.
  predicate IsLatest(t: Tweets, q: Queue, u: User)
    requires u in q
  {
    forall v :: v in q ==> Time(t, PostRef(v, q[v])) <= Time(t, PostRef(u, q[u]))
  }

  lemma TakeNext(t: Tweets, us: set<User>, q: Queue, taken: seq<PostRef>, feed: seq<int>, u: User)
    requires Merged(t, us, q, taken, feed) && u in q && IsLatest(t, q, u)
    ensures q[u] < |Table(t, u)|
    ensures Merged(t, us, Popped(q, u), taken + [PostRef(u, q[u])], feed + [Table(t, u)[q[u]].id])
  {
    MergeStep(t, us, q, taken, u);
    if Chronological(t) {
      SortedStep(t, us, q, taken, u);
    }
  }

  lemma IsLatestAgrees(t: Tweets, t2: Tweets, q: Queue, u: User)
    requires u in q && forall v :: Table(t, v) == Table(t2, v)
    ensures IsLatest(t, q, u) == IsLatest(t2, q, u)
  {
  }

  lemma {:induction false} Cardinality(ps: seq<PostRef>, s: set<PostRef>)
    requires Distinct(ps) && forall p :: p in ps <==> p in s
    ensures |ps| == |s|
  {
    if ps == [] {
      assert s == {};
    } else {
      assert ps == [ps[0]] + ps[1..];
      Cardinality(ps[1..], s - {ps[0]});
    }
  }

  lemma {:induction false} LatestExists(t: Tweets, q: Queue) returns (u: User)
    requires q.Keys != {}
    ensures u in q && IsLatest(t, q, u)
    decreases |q|
  {
    var x :| x in q.Keys;
    var rest := q - {x};
    assert rest.Keys == q.Keys - {x};
    if rest.Keys == {} {
      assert forall v :: v in q.Keys ==> v == x || v in rest.Keys;
      u := x;
    } else {
      u := LatestExists(t, rest);
      assert forall v :: v in q ==> v == x || v in rest;
      if Time(t, PostRef(u, q[u])) < Time(t, PostRef(x, q[x])) {
        u := x;
      }
    }
  }

  class Twitter {
    var followees: Followees
    var tweets: Tweets

    constructor ()
      ensures followees == map[] && tweets == map[]
    {
      followees, tweets := map[], map[];
    }

    method PostTweet(userId: User, tweetId: int, now: int)
      modifies this
      ensures tweets == old(tweets)[userId := Table(old(tweets), userId) + [Post(now, tweetId)]]
      ensures followees == old(followees)[userId := Followed(old(followees), userId) + {userId}]
      ensures Chronological(old(tweets)) && (forall p :: p in Table(old(tweets), userId) ==> p.time <= now) ==>
                Chronological(tweets)
    {
      tweets := tweets[userId := Table(tweets, userId) + [Post(now, tweetId)]];
      followees := followees[userId := Followed(followees, userId) + {userId}];
    }

    method Follow(followerId: User, followeeId: User)
      modifies this`followees
      ensures Followed(followees, followerId) == Followed(old(followees), followerId) + {followeeId, followerId}
      ensures followerId != followeeId ==>
                Followed(followees, followeeId) == Followed(old(followees), followeeId) + {followeeId}
      ensures forall u :: u != followerId && u != followeeId ==> Followed(followees, u) == Followed(old(followees), u)
    {
      followees := followees[followerId := Followed(followees, followerId) + {followeeId}];
      followees := followees[followerId := Followed(followees, followerId) + {followerId}];
      followees := followees[followeeId := Followed(followees, followeeId) + {followeeId}];
    }

    method Unfollow(followerId: User, followeeId: User)
      modifies this`followees
      ensures Followed(followees, followerId) == Followed(old(followees), followerId) - {followeeId}
      ensures forall u :: u != followerId ==> Followed(followees, u) == Followed(old(followees), u)
    {
      followees := followees[followerId := Followed(followees, followerId) - {followeeId}];
    }

    // The feed shows distinct posts of the followees, ten or all there are; for non-decreasing
    // post times it shows them newest first and leaves out none that is newer. Asking for it
    // changes nothing but that missing entries come into being empty.
    method GetNewsFeed(userId: User) returns (feed: seq<int>, ghost taken: seq<PostRef>)
      modifies this
      ensures var us := Followed(old(followees), userId);
              && ArePosts(old(tweets), us, taken) && Shows(old(tweets), taken, feed)
              && |feed| == (if |Posts(old(tweets), us)| < 10 then |Posts(old(tweets), us)| else 10)
              && (Chronological(old(tweets)) ==> Sorted(old(tweets), us, taken))
      ensures forall u :: Followed(followees, u) == Followed(old(followees), u)
      ensures forall u :: Table(tweets, u) == Table(old(tweets), u)
    {
      ghost var t := tweets;
      followees := followees[userId := Followed(followees, userId)];
      assert forall u :: Followed(followees, u) == Followed(old(followees), u);
      var us := followees[userId];
      var pq := CollectLatest(us);
      feed, taken := [], [];
      while pq.Keys != {} && |feed| < FEED_MAX
        invariant Merged(t, us, pq, taken, feed) && |feed| <= FEED_MAX
        invariant forall u :: Table(tweets, u) == Table(t, u)
        invariant forall u :: Followed(followees, u) == Followed(old(followees), u)
        decreases FEED_MAX - |feed|
      {
        ghost var latest := LatestExists(t, pq);
        IsLatestAgrees(t, tweets, pq, latest);
        var u :| u in pq && IsLatest(tweets, pq, u);
        IsLatestAgrees(t, tweets, pq, u);
        TakeNext(t, us, pq, taken, feed, u);
        feed := feed + [Table(tweets, u)[pq[u]].id];
        taken := taken + [PostRef(u, pq[u])];
        pq := Popped(pq, u);
      }
      TakenCount(t, us, pq, taken);
    }

    // One entry per followee with a tweet, at that followee's newest.
    method CollectLatest(us: set<User>) returns (pq: Queue)
      modifies this`tweets
      ensures forall u :: Table(tweets, u) == Table(old(tweets), u)
      ensures Merging(old(tweets), us, pq, [])
    {
      pq := map[];
      var rest := us;
      while rest != {}
        invariant rest <= us && forall u :: Table(tweets, u) == Table(old(tweets), u)
        invariant forall u :: u in pq <==> u in us - rest && |Table(old(tweets), u)| > 0
        invariant forall u :: u in pq ==> pq[u] == |Table(old(tweets), u)| - 1
        decreases rest
      {
        var u :| u in rest;
        rest := rest - {u};
        tweets := tweets[u := Table(tweets, u)];
        if |tweets[u]| > 0 {
          pq := pq[u := |tweets[u]| - 1];
        }
      }
    }
  }

  // The loop stops with ten posts, or with all of them.
  lemma TakenCount(t: Tweets, us: set<User>, q: Queue, taken: seq<PostRef>)
    requires Merging(t, us, q, taken) && |taken| <= FEED_MAX && (q.Keys == {} || |taken| == FEED_MAX)
    ensures |taken| == if |Posts(t, us)| < FEED_MAX then |Posts(t, us)| else FEED_MAX
  {
    var s := set p | p in taken;
    Cardinality(taken, s);
    assert forall p :: p in Posts(t, us) <==> IsPost(t, us, p);
    if q.Keys == {} {
      assert s == Posts(t, us);
    } else {
      assert s <= Posts(t, us);
      SubsetSize(s, Posts(t, us));
    }
  }

  lemma {:induction false} SubsetSize(s: set<PostRef>, s2: set<PostRef>)
    requires s <= s2
    ensures |s| <= |s2|
  {
    assert s2 == s + (s2 - s);
  }
}
