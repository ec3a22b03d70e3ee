/**
 `traverse`: its documentation says depth-first, its queue makes it breadth-first (src/trace.rs:100-138).
 The order is a function of the trace results; the theorem says what that order is.
 */
module Traversal {
  import opened Basics

  /** One queue entry, and one callback: a node and the node it was found from. */
  datatype Visit = Visit(node: Ptr, parent: Option<Ptr>)

  ghost predicate Closed(kids: map<Ptr, seq<Ptr>>) {
    forall n, k {:trigger k in kids[n]} :: n in kids && k in kids[n] ==> k in kids
  }

  /** The pushes of a visited node: its children, last traced first, that are unvisited (src/trace.rs:131-135). */
  function Pushes(kids: map<Ptr, seq<Ptr>>, visited: set<Ptr>, u: Ptr): (q: seq<Visit>)
    requires u in kids
    ensures forall i :: 0 <= i < |q| ==> q[i].parent == Some(u) && q[i].node in kids[u] && q[i].node !in visited
  {
    Entries(u, Keep(Reverse(Dedup(kids[u])), Unvisited(kids[u], visited)))
  }

  function Unvisited(xs: seq<Ptr>, visited: set<Ptr>): set<Ptr> {
    set x | x in xs && x !in visited
  }

  function Entries(u: Ptr, xs: seq<Ptr>): (q: seq<Visit>)
    ensures |q| == |xs| && forall i :: 0 <= i < |q| ==> q[i] == Visit(xs[i], Some(u))
  {
    seq(|xs|, i requires 0 <= i < |xs| => Visit(xs[i], Some(u)))
  }

  /** The loop of `traverse` from `queue`: what it visits, in order. */
  function Bfs(kids: map<Ptr, seq<Ptr>>, visited: set<Ptr>, queue: seq<Visit>): seq<Visit>
    requires Closed(kids) && forall i :: 0 <= i < |queue| ==> queue[i].node in kids
    decreases |kids.Keys - visited|, |queue|
  {
    if queue == [] then []
    else
      var u := queue[0].node;
      if u in visited then Bfs(kids, visited, queue[1..])
      else
        SmallerSet(kids.Keys - visited, kids.Keys - (visited + {u}), u);
        [queue[0]] + Bfs(kids, visited + {u}, queue[1..] + Pushes(kids, visited + {u}, u))
  }

  lemma SmallerSet(a: set<Ptr>, b: set<Ptr>, u: Ptr)
    requires u in a && b == a - {u}
    ensures |b| < |a|
  {
  }

  function Traverse(kids: map<Ptr, seq<Ptr>>, visited: set<Ptr>, start: Ptr): seq<Visit>
    requires Closed(kids) && start in kids
  {
    Bfs(kids, visited, [Visit(start, None)])
  }

  predicate Passes(part: map<Ptr, nat>, filter: Option<nat>, v: Visit) {
    filter == None || (v.node in part && part[v.node] == filter.value)
  }

  /** The callbacks: a filter limits them to one partition, not the traversal (src/trace.rs:124-126). */
  function Called(part: map<Ptr, nat>, filter: Option<nat>, r: seq<Visit>): (calls: seq<Visit>)
    ensures forall v :: v in calls <==> v in r && (filter == None || (v.node in part && part[v.node] == filter.value))
    ensures filter == None ==> calls == r
  {
    if r == [] then []
    else
      var n := |r| - 1;
      var init := Called(part, filter, r[..n]);
      assert r == r[..n] + [r[n]];
      if Passes(part, filter, r[n]) then init + [r[n]] else init
  }

  lemma CalledNext(part: map<Ptr, nat>, filter: Option<nat>, r: seq<Visit>, i: nat)
    requires i < |r|
    ensures Called(part, filter, r[..i + 1]) ==
              Called(part, filter, r[..i]) + (if Passes(part, filter, r[i]) then [r[i]] else [])
  {
    assert r[..i + 1][..i] == r[..i];
  }

  /** The callbacks are the stable filter of the visits: order and multiplicity are those of the traversal. */
  lemma {:induction false} CalledIsFilter(part: map<Ptr, nat>, filter: Option<nat>, a: seq<Visit>, b: seq<Visit>)
    ensures Called(part, filter, a + b) == Called(part, filter, a) + Called(part, filter, b)
    ensures |b| == 1 ==> Called(part, filter, b) == if Passes(part, filter, b[0]) then b else []
  {
    hide Called, Passes;
    CalledNone(part, filter);
    if b == [] {
      assert a + b == a;
    } else {
      var n := |b| - 1;
      SumNext(a, b);
      CalledIsFilter(part, filter, a, b[..n]);
      CalledNext(part, filter, a + b, |a| + n);
      CalledNext(part, filter, b, n);
    }
  }

  lemma SumNext(a: seq<Visit>, b: seq<Visit>)
    requires b != []
    ensures var n := |b| - 1;
            && (a + b)[..|a| + n] == a + b[..n] && (a + b)[|a| + n] == b[n]
            && (a + b)[..|a| + n + 1] == a + b && b[..n + 1] == b
            && (n == 0 ==> b[..n] == [] && b == [b[0]])
  {
  }

  lemma CalledNone(part: map<Ptr, nat>, filter: Option<nat>)
    ensures Called(part, filter, []) == []
  {
  }

  ghost function NodesOf(r: seq<Visit>): set<Ptr> {
    set i | 0 <= i < |r| :: r[i].node
  }

  /** The loop of `traverse` with `order` visited and `queue` to go. */
  ghost predicate BfsAt(
      kids: map<Ptr, seq<Ptr>>, v0: set<Ptr>, start: Ptr, visited: set<Ptr>, queue: seq<Visit>, order: seq<Visit>)
    requires Closed(kids) && start in kids
  {
    && (forall i :: 0 <= i < |queue| ==> queue[i].node in kids)
    && order + Bfs(kids, visited, queue) == Traverse(kids, v0, start) && visited == v0 + NodesOf(order)
  }

  lemma BfsStart(kids: map<Ptr, seq<Ptr>>, v0: set<Ptr>, start: Ptr)
    requires Closed(kids) && start in kids
    ensures BfsAt(kids, v0, start, v0, [Visit(start, None)], [])
  {
    assert NodesOf([]) == {};
  }

  lemma BfsQueued(kids: map<Ptr, seq<Ptr>>, v0: set<Ptr>, start: Ptr, visited: set<Ptr>, queue: seq<Visit>, order: seq<Visit>)
    requires Closed(kids) && start in kids && BfsAt(kids, v0, start, visited, queue, order) && queue != []
    ensures queue[0].node in kids
  {
  }

  lemma BfsSkip(kids: map<Ptr, seq<Ptr>>, v0: set<Ptr>, start: Ptr, visited: set<Ptr>, queue: seq<Visit>, order: seq<Visit>)
    requires Closed(kids) && start in kids && BfsAt(kids, v0, start, visited, queue, order)
    requires queue != [] && queue[0].node in visited
    ensures BfsAt(kids, v0, start, visited, queue[1..], order)
  {
  }

  lemma BfsUnfold(kids: map<Ptr, seq<Ptr>>, visited: set<Ptr>, queue: seq<Visit>)
    requires Closed(kids) && forall i :: 0 <= i < |queue| ==> queue[i].node in kids
    requires queue != [] && queue[0].node !in visited
    ensures var u := queue[0].node; var queue' := queue[1..] + Pushes(kids, visited + {u}, u);
            && (forall i :: 0 <= i < |queue'| ==> queue'[i].node in kids)
            && Bfs(kids, visited, queue) == [queue[0]] + Bfs(kids, visited + {u}, queue')
            && |kids.Keys - (visited + {u})| < |kids.Keys - visited|
  {
    var u := queue[0].node;
    SmallerSet(kids.Keys - visited, kids.Keys - (visited + {u}), u);
  }

  lemma BfsVisit(kids: map<Ptr, seq<Ptr>>, v0: set<Ptr>, start: Ptr, visited: set<Ptr>, queue: seq<Visit>, order: seq<Visit>)
    requires Closed(kids) && start in kids && BfsAt(kids, v0, start, visited, queue, order)
    requires queue != [] && queue[0].node !in visited
    ensures queue[0].node in kids
    ensures var u := queue[0].node; var visited' := visited + {u};
            && BfsAt(kids, v0, start, visited', queue[1..] + Pushes(kids, visited', u), order + [queue[0]])
            && |kids.Keys - visited'| < |kids.Keys - visited|
  {
    hide Bfs, Pushes, NodesOf, Closed, Traverse;
    BfsUnfold(kids, visited, queue);
    OneMoreVisited(order, queue[0]);
    var u := queue[0].node;
    var rest := Bfs(kids, visited + {u}, queue[1..] + Pushes(kids, visited + {u}, u));
    assert order + ([queue[0]] + rest) == order + [queue[0]] + rest;
  }

  lemma BfsEnds(kids: map<Ptr, seq<Ptr>>, v0: set<Ptr>, start: Ptr, visited: set<Ptr>, order: seq<Visit>)
    requires Closed(kids) && start in kids && BfsAt(kids, v0, start, visited, [], order)
    ensures order == Traverse(kids, v0, start) && visited == v0 + NodesOf(order)
  {
  }

  // ---- distance ----

  /** Nodes reached from `start` in at most `d` steps through nodes outside `v0`. */
  ghost function Ball(kids: map<Ptr, seq<Ptr>>, v0: set<Ptr>, start: Ptr, d: nat): set<Ptr> {
    if d == 0 then (if start in v0 then {} else {start})
    else
      var b := Ball(kids, v0, start, d - 1);
      b + (set n, k | n in b && n in kids && k in kids[n] && k !in v0 :: k)
  }

  ghost predicate AtDistance(kids: map<Ptr, seq<Ptr>>, v0: set<Ptr>, start: Ptr, n: Ptr, d: nat) {
    n in Ball(kids, v0, start, d) && (d > 0 ==> n !in Ball(kids, v0, start, d - 1))
  }

  ghost predicate Reachable(kids: map<Ptr, seq<Ptr>>, v0: set<Ptr>, start: Ptr, n: Ptr) {
    exists d: nat :: n in Ball(kids, v0, start, d)
  }

  ghost function Distance(kids: map<Ptr, seq<Ptr>>, v0: set<Ptr>, start: Ptr, n: Ptr): nat {
    if exists d: nat :: AtDistance(kids, v0, start, n, d) then
      var d: nat :| AtDistance(kids, v0, start, n, d); d
    else 0
  }

  lemma {:induction false} BallGrows(kids: map<Ptr, seq<Ptr>>, v0: set<Ptr>, start: Ptr, d: nat, e: nat)
    requires d <= e
    ensures Ball(kids, v0, start, d) <= Ball(kids, v0, start, e)
    decreases e
  {
    if d < e { BallGrows(kids, v0, start, d, e - 1); }
  }

  lemma DistanceIs(kids: map<Ptr, seq<Ptr>>, v0: set<Ptr>, start: Ptr, n: Ptr, d: nat)
    requires AtDistance(kids, v0, start, n, d)
    ensures Distance(kids, v0, start, n) == d
  {
    hide Ball;
    var e: nat := Distance(kids, v0, start, n);
    assert AtDistance(kids, v0, start, n, e);
    if e < d { BallGrows(kids, v0, start, e, d - 1); }
    if d < e { BallGrows(kids, v0, start, d, e - 1); }
  }

  // ---- the invariant of the loop ----

  /** The distance a queue entry promises. */
  ghost function Promise(kids: map<Ptr, seq<Ptr>>, v0: set<Ptr>, start: Ptr, q: Visit): nat {
    if q.parent == None then 0 else Distance(kids, v0, start, q.parent.value) + 1
  }

  /** `u` has been visited by this traversal, at its true distance. */
  ghost predicate Found(kids: map<Ptr, seq<Ptr>>, v0: set<Ptr>, start: Ptr, u: Ptr) {
    u in kids && u !in v0 && AtDistance(kids, v0, start, u, Distance(kids, v0, start, u))
  }

  ghost predicate EntryOk(kids: map<Ptr, seq<Ptr>>, v0: set<Ptr>, start: Ptr, visited: set<Ptr>, q: Visit) {
    && q.node in kids && q.node !in v0
    && (q.parent == None ==> q.node == start)
    && (q.parent.Some? ==> q.parent.value in visited - v0 && q.parent.value in kids && q.node in kids[q.parent.value])
  }

  /** Entry `q` will visit `k` no further out than `d`. */
  ghost predicate Promised(kids: map<Ptr, seq<Ptr>>, v0: set<Ptr>, start: Ptr, queue: seq<Visit>, k: Ptr, d: nat) {
    exists i :: 0 <= i < |queue| && queue[i].node == k && Promise(kids, v0, start, queue[i]) <= d
  }

  /** Everything visited was found at its true distance. */
  ghost predicate Explored(kids: map<Ptr, seq<Ptr>>, v0: set<Ptr>, start: Ptr, visited: set<Ptr>) {
    v0 <= visited && forall u {:trigger u in visited} :: u in visited && u !in v0 ==> Found(kids, v0, start, u)
  }

  ghost predicate EntriesOk(kids: map<Ptr, seq<Ptr>>, v0: set<Ptr>, start: Ptr, visited: set<Ptr>, queue: seq<Visit>) {
    forall i {:trigger queue[i]} :: 0 <= i < |queue| ==> EntryOk(kids, v0, start, visited, queue[i])
  }

  /** Promises ascend along the queue, by at most one in all. */
  ghost predicate Layered(kids: map<Ptr, seq<Ptr>>, v0: set<Ptr>, start: Ptr, queue: seq<Visit>) {
    forall i, j {:trigger queue[i], queue[j]} :: 0 <= i < j < |queue| ==>
      Promise(kids, v0, start, queue[i]) <= Promise(kids, v0, start, queue[j]) <= Promise(kids, v0, start, queue[i]) + 1
  }

  /** Every child of a visited node is visited or promised one step further out; so is the start. */
  ghost predicate Covered(kids: map<Ptr, seq<Ptr>>, v0: set<Ptr>, start: Ptr, visited: set<Ptr>, queue: seq<Visit>) {
    && (forall u, k {:trigger k in kids[u]} :: u in visited && u !in v0 && u in kids && k in kids[u] && k !in v0 ==>
          k in visited || Promised(kids, v0, start, queue, k, Distance(kids, v0, start, u) + 1))
    && (start in visited || Promised(kids, v0, start, queue, start, 0))
  }

  /** Nothing visited is further out than what is queued. */
  ghost predicate Behind(kids: map<Ptr, seq<Ptr>>, v0: set<Ptr>, start: Ptr, visited: set<Ptr>, queue: seq<Visit>) {
    forall u, i {:trigger u in visited, queue[i]} :: u in visited && u !in v0 && 0 <= i < |queue| ==>
      Distance(kids, v0, start, u) <= Promise(kids, v0, start, queue[i])
  }

  /** Everything nearer than the front entry's promise is visited. */
  ghost predicate Filled(kids: map<Ptr, seq<Ptr>>, v0: set<Ptr>, start: Ptr, visited: set<Ptr>, queue: seq<Visit>) {
    queue != [] && Promise(kids, v0, start, queue[0]) > 0 ==>
      Ball(kids, v0, start, Promise(kids, v0, start, queue[0]) - 1) <= visited
  }

  ghost predicate Frontier(kids: map<Ptr, seq<Ptr>>, v0: set<Ptr>, start: Ptr, visited: set<Ptr>, queue: seq<Visit>) {
    && Closed(kids) && start in kids && start !in v0
    && Explored(kids, v0, start, visited) && EntriesOk(kids, v0, start, visited, queue)
    && Layered(kids, v0, start, queue) && Covered(kids, v0, start, visited, queue)
    && Behind(kids, v0, start, visited, queue) && Filled(kids, v0, start, visited, queue)
  }

  lemma BallZero(kids: map<Ptr, seq<Ptr>>, v0: set<Ptr>, start: Ptr)
    requires start !in v0
    ensures Ball(kids, v0, start, 0) == {start}
  {
  }

  lemma {:induction false} BallOutside(kids: map<Ptr, seq<Ptr>>, v0: set<Ptr>, start: Ptr, d: nat)
    ensures Ball(kids, v0, start, d) !! v0
  {
    if d > 0 { BallOutside(kids, v0, start, d - 1); }
  }

  lemma BallNext(kids: map<Ptr, seq<Ptr>>, v0: set<Ptr>, start: Ptr, d: nat, k: Ptr) returns (u: Ptr)
    requires k in Ball(kids, v0, start, d + 1) && k !in Ball(kids, v0, start, d)
    ensures u in Ball(kids, v0, start, d) && u in kids && k in kids[u] && k !in v0
  {
    u :| u in Ball(kids, v0, start, d) && u in kids && k in kids[u] && k !in v0;
  }

  lemma BallStep(kids: map<Ptr, seq<Ptr>>, v0: set<Ptr>, start: Ptr, d: nat, u: Ptr, k: Ptr)
    requires u in Ball(kids, v0, start, d) && u in kids && k in kids[u] && k !in v0
    ensures k in Ball(kids, v0, start, d + 1)
  {
  }

  lemma DistanceAtMost(kids: map<Ptr, seq<Ptr>>, v0: set<Ptr>, start: Ptr, n: Ptr, d: nat)
    requires Found(kids, v0, start, n) && n in Ball(kids, v0, start, d)
    ensures Distance(kids, v0, start, n) <= d
  {
    hide Ball, Distance;
    var e := Distance(kids, v0, start, n);
    if d < e { BallGrows(kids, v0, start, d, e - 1); }
  }

  // ---- one turn of the loop ----

  /** When only the front entry still promises its distance, that shell is complete once its node is visited. */
  lemma Shell(kids: map<Ptr, seq<Ptr>>, v0: set<Ptr>, start: Ptr, visited: set<Ptr>, queue: seq<Visit>)
    requires start !in v0 && queue != [] && Explored(kids, v0, start, visited) && Covered(kids, v0, start, visited, queue)
    requires Filled(kids, v0, start, visited, queue)
    requires forall i {:trigger queue[i]} :: 0 < i < |queue| ==> Promise(kids, v0, start, queue[i]) > Promise(kids, v0, start, queue[0])
    ensures Ball(kids, v0, start, Promise(kids, v0, start, queue[0])) <= visited + {queue[0].node}
  {
    hide Ball, Distance, Promise;
    var t := Promise(kids, v0, start, queue[0]);
    if t == 0 {
      BallZero(kids, v0, start);
    } else {
      forall k | k in Ball(kids, v0, start, t) ensures k in visited + {queue[0].node} {
        if k !in Ball(kids, v0, start, t - 1) {
          var u := BallNext(kids, v0, start, t - 1, k);
          BallOutside(kids, v0, start, t - 1);
          assert u in visited && u !in v0;
          DistanceAtMost(kids, v0, start, u, t - 1);
        }
      }
    }
  }

  /** Moving on to the second entry: everything nearer than its promise is visited. */
  lemma NextShell(kids: map<Ptr, seq<Ptr>>, v0: set<Ptr>, start: Ptr, visited: set<Ptr>, queue: seq<Visit>)
    requires Frontier(kids, v0, start, visited, queue) && queue != []
    ensures |queue| > 1 ==> Filled(kids, v0, start, visited + {queue[0].node}, queue[1..])
    ensures |queue| == 1 ==> Ball(kids, v0, start, Promise(kids, v0, start, queue[0])) <= visited + {queue[0].node}
  {
    hide Ball, Distance, Promise, Explored, EntriesOk, Behind, Covered, Closed;
    if |queue| == 1 {
      Shell(kids, v0, start, visited, queue);
    } else if Promise(kids, v0, start, queue[1]) > Promise(kids, v0, start, queue[0]) {
      forall i | 0 < i < |queue| ensures Promise(kids, v0, start, queue[i]) > Promise(kids, v0, start, queue[0]) {
        assert i > 1 ==> Promise(kids, v0, start, queue[1]) <= Promise(kids, v0, start, queue[i]);
      }
      Shell(kids, v0, start, visited, queue);
      assert Promise(kids, v0, start, queue[1]) == Promise(kids, v0, start, queue[0]) + 1;
    } else {
      assert Promise(kids, v0, start, queue[1]) == Promise(kids, v0, start, queue[0]);
    }
  }

  lemma PromisedAfter(kids: map<Ptr, seq<Ptr>>, v0: set<Ptr>, start: Ptr, queue: seq<Visit>, more: seq<Visit>, k: Ptr, d: nat)
    requires queue != [] && queue[0].node != k && Promised(kids, v0, start, queue, k, d)
    ensures Promised(kids, v0, start, queue[1..] + more, k, d)
  {
    hide Ball, Distance, Promise;
    var i :| 0 <= i < |queue| && queue[i].node == k && Promise(kids, v0, start, queue[i]) <= d;
    assert (queue[1..] + more)[i - 1] == queue[i];
  }

  /** Dropping an entry whose node is visited already. */
  lemma SkipKeeps(kids: map<Ptr, seq<Ptr>>, v0: set<Ptr>, start: Ptr, visited: set<Ptr>, queue: seq<Visit>)
    requires Frontier(kids, v0, start, visited, queue) && queue != [] && queue[0].node in visited
    ensures Frontier(kids, v0, start, visited, queue[1..])
  {
    hide Ball, Distance, Promise, Closed, Explored, EntryOk;
    NextShell(kids, v0, start, visited, queue);
    assert visited + {queue[0].node} == visited;
    var rest := queue[1..];
    assert rest + [] == rest;
    forall k, d: nat | Promised(kids, v0, start, queue, k, d) && k !in visited ensures Promised(kids, v0, start, rest, k, d) {
      PromisedAfter(kids, v0, start, queue, [], k, d);
    }
  }

  /** The front entry keeps its promise. */
  lemma FrontFound(kids: map<Ptr, seq<Ptr>>, v0: set<Ptr>, start: Ptr, visited: set<Ptr>, queue: seq<Visit>)
    requires Frontier(kids, v0, start, visited, queue) && queue != [] && queue[0].node !in visited
    ensures Found(kids, v0, start, queue[0].node) && queue[0].node in kids
    ensures Distance(kids, v0, start, queue[0].node) == Promise(kids, v0, start, queue[0])
  {
    hide Ball, Distance, Covered, Layered, Behind, Closed;
    var q := queue[0];
    var t := Promise(kids, v0, start, q);
    assert EntryOk(kids, v0, start, visited, q);
    if q.parent == None {
      BallZero(kids, v0, start);
    } else {
      var w := q.parent.value;
      assert w in visited && Found(kids, v0, start, w);
      BallStep(kids, v0, start, t - 1, w, q.node);
    }
    DistanceIs(kids, v0, start, q.node, t);
  }

  /** Visiting the front entry's node. */
  lemma VisitKeeps(kids: map<Ptr, seq<Ptr>>, v0: set<Ptr>, start: Ptr, visited: set<Ptr>, queue: seq<Visit>)
    requires Frontier(kids, v0, start, visited, queue) && queue != [] && queue[0].node !in visited
    ensures queue[0].node in kids
    ensures var u := queue[0].node; var visited' := visited + {u};
            Frontier(kids, v0, start, visited', queue[1..] + Pushes(kids, visited', u))
  {
    FrontFound(kids, v0, start, visited, queue);
    NextShell(kids, v0, start, visited, queue);
    hide Ball, Distance, Closed, Promise, Found, Explored, EntriesOk, Layered, Covered, Behind, Filled, Pushes;
    VisitKeepsExplored(kids, v0, start, visited, queue[0].node);
    VisitKeepsEntries(kids, v0, start, visited, queue);
    VisitKeepsLayers(kids, v0, start, visited, queue);
    VisitKeepsCover(kids, v0, start, visited, queue);
    VisitKeepsFilled(kids, v0, start, visited, queue);
  }

  lemma VisitKeepsExplored(kids: map<Ptr, seq<Ptr>>, v0: set<Ptr>, start: Ptr, visited: set<Ptr>, u: Ptr)
    requires Explored(kids, v0, start, visited) && Found(kids, v0, start, u)
    ensures v0 <= visited && Explored(kids, v0, start, visited + {u})
  {
    hide Found;
  }

  lemma VisitKeepsFilled(kids: map<Ptr, seq<Ptr>>, v0: set<Ptr>, start: Ptr, visited: set<Ptr>, queue: seq<Visit>)
    requires queue != [] && queue[0].node in kids
    requires Distance(kids, v0, start, queue[0].node) == Promise(kids, v0, start, queue[0])
    requires |queue| > 1 ==> Filled(kids, v0, start, visited + {queue[0].node}, queue[1..])
    requires |queue| == 1 ==> Ball(kids, v0, start, Promise(kids, v0, start, queue[0])) <= visited + {queue[0].node}
    ensures var u := queue[0].node; var visited' := visited + {u};
            Filled(kids, v0, start, visited', queue[1..] + Pushes(kids, visited', u))
  {
    hide Ball, Distance;
    var u := queue[0].node;
    var pushes := Pushes(kids, visited + {u}, u);
    if |queue| == 1 {
      assert queue[1..] + pushes == pushes;
    } else {
      assert (queue[1..] + pushes)[0] == queue[1];
    }
  }

  lemma VisitKeepsEntries(kids: map<Ptr, seq<Ptr>>, v0: set<Ptr>, start: Ptr, visited: set<Ptr>, queue: seq<Visit>)
    requires Closed(kids) && EntriesOk(kids, v0, start, visited, queue) && queue != [] && v0 <= visited
    requires queue[0].node in kids && queue[0].node !in visited
    ensures var u := queue[0].node; var visited' := visited + {u};
            EntriesOk(kids, v0, start, visited', queue[1..] + Pushes(kids, visited', u))
  {
    var u := queue[0].node;
    var visited' := visited + {u};
    var queue' := queue[1..] + Pushes(kids, visited', u);
    forall i | 0 <= i < |queue'| ensures EntryOk(kids, v0, start, visited', queue'[i]) {
      if i < |queue| - 1 {
        assert EntryOk(kids, v0, start, visited, queue[i + 1]);
      }
    }
  }

  lemma VisitKeepsLayers(kids: map<Ptr, seq<Ptr>>, v0: set<Ptr>, start: Ptr, visited: set<Ptr>, queue: seq<Visit>)
    requires Layered(kids, v0, start, queue) && Behind(kids, v0, start, visited, queue) && queue != []
    requires queue[0].node in kids
    requires Distance(kids, v0, start, queue[0].node) == Promise(kids, v0, start, queue[0])
    ensures var u := queue[0].node; var visited' := visited + {u}; var queue' := queue[1..] + Pushes(kids, visited', u);
            Layered(kids, v0, start, queue') && Behind(kids, v0, start, visited', queue')
  {
    hide Distance;
    var u, t := queue[0].node, Promise(kids, v0, start, queue[0]);
    var visited' := visited + {u};
    var queue' := queue[1..] + Pushes(kids, visited', u);
    forall i | 0 <= i < |queue'|
      ensures if i < |queue| - 1 then queue'[i] == queue[i + 1] && t <= Promise(kids, v0, start, queue'[i]) <= t + 1
              else Promise(kids, v0, start, queue'[i]) == t + 1
    {
      if i < |queue| - 1 { assert queue'[i] == queue[i + 1]; }
    }
    forall x, i | x in visited' && x !in v0 && 0 <= i < |queue'|
      ensures Distance(kids, v0, start, x) <= Promise(kids, v0, start, queue'[i])
    {
      assert x != u ==> x in visited && Distance(kids, v0, start, x) <= Promise(kids, v0, start, queue[0]);
    }
  }

  lemma VisitKeepsCover(kids: map<Ptr, seq<Ptr>>, v0: set<Ptr>, start: Ptr, visited: set<Ptr>, queue: seq<Visit>)
    requires Covered(kids, v0, start, visited, queue) && queue != [] && queue[0].node in kids
    ensures var u := queue[0].node; var visited' := visited + {u};
            Covered(kids, v0, start, visited', queue[1..] + Pushes(kids, visited', u))
  {
    hide Distance, Promise;
    var u := queue[0].node;
    var visited' := visited + {u};
    var pushes := Pushes(kids, visited', u);
    var queue' := queue[1..] + pushes;
    forall k, d: nat | Promised(kids, v0, start, queue, k, d) && k != u ensures Promised(kids, v0, start, queue', k, d) {
      PromisedAfter(kids, v0, start, queue, pushes, k, d);
    }
    forall k | k in kids[u] && k !in visited' ensures Promised(kids, v0, start, queue', k, Distance(kids, v0, start, u) + 1) {
      PushedPromise(kids, v0, start, visited', queue[1..], u, k);
    }
  }

  lemma PushedPromise(kids: map<Ptr, seq<Ptr>>, v0: set<Ptr>, start: Ptr, visited: set<Ptr>, rest: seq<Visit>, u: Ptr, k: Ptr)
    requires u in kids && k in kids[u] && k !in visited
    ensures Promised(kids, v0, start, rest + Pushes(kids, visited, u), k, Distance(kids, v0, start, u) + 1)
  {
    hide Distance;
    var xs := Keep(Reverse(Dedup(kids[u])), Unvisited(kids[u], visited));
    var i :| 0 <= i < |xs| && xs[i] == k;
    var queue := rest + Pushes(kids, visited, u);
    assert queue[|rest| + i] == Visit(k, Some(u));
  }

  // ---- the theorem ----

  /** Entry `i` was found over an edge from a node visited before it and one step nearer; only the start has no parent. */
  ghost predicate ParentOk(kids: map<Ptr, seq<Ptr>>, v0: set<Ptr>, start: Ptr, visited: set<Ptr>, r: seq<Visit>, i: nat)
    requires i < |r|
  {
    match r[i].parent
    case None => r[i].node == start
    case Some(w) =>
      && w in kids && r[i].node in kids[w]
      && Distance(kids, v0, start, r[i].node) == Distance(kids, v0, start, w) + 1
      && ((w in visited && w !in v0) || exists j :: 0 <= j < i && r[j].node == w)
  }

  /** Each node once, none nearer than `least`, distances ascending, parents in order. */
  ghost predicate BreadthFirst(kids: map<Ptr, seq<Ptr>>, v0: set<Ptr>, start: Ptr, visited: set<Ptr>, r: seq<Visit>, least: nat) {
    && (forall i {:trigger r[i]} :: 0 <= i < |r| ==>
          && r[i].node !in visited && Found(kids, v0, start, r[i].node)
          && least <= Distance(kids, v0, start, r[i].node) && ParentOk(kids, v0, start, visited, r, i))
    && (forall i, j {:trigger r[i], r[j]} :: 0 <= i < j < |r| ==>
          r[i].node != r[j].node && Distance(kids, v0, start, r[i].node) <= Distance(kids, v0, start, r[j].node))
  }

  lemma BreadthFirstCons(
      kids: map<Ptr, seq<Ptr>>, v0: set<Ptr>, start: Ptr, visited: set<Ptr>, q: Visit, r: seq<Visit>, least: nat)
    requires q.node !in visited && Found(kids, v0, start, q.node) && EntryOk(kids, v0, start, visited, q)
    requires least <= Distance(kids, v0, start, q.node) == Promise(kids, v0, start, q)
    requires BreadthFirst(kids, v0, start, visited + {q.node}, r, Distance(kids, v0, start, q.node))
    ensures BreadthFirst(kids, v0, start, visited, [q] + r, least)
  {
    hide Found, Distance;
    var all := [q] + r;
    forall i | 0 <= i < |all|
      ensures all[i].node !in visited && Found(kids, v0, start, all[i].node)
      ensures least <= Distance(kids, v0, start, all[i].node) && ParentOk(kids, v0, start, visited, all, i)
    {
      if i > 0 {
        assert all[i] == r[i - 1] && ParentOk(kids, v0, start, visited + {q.node}, r, i - 1);
        match r[i - 1].parent {
          case None =>
          case Some(w) =>
            if w == q.node {
              assert all[0].node == w;
            } else if w !in visited {
              var j :| 0 <= j < i - 1 && r[j].node == w;
              assert all[j + 1].node == w;
            }
        }
      }
    }
  }

  lemma {:induction false} BfsOrder(kids: map<Ptr, seq<Ptr>>, v0: set<Ptr>, start: Ptr, visited: set<Ptr>, queue: seq<Visit>, least: nat)
    requires Frontier(kids, v0, start, visited, queue)
    requires forall i {:trigger queue[i]} :: 0 <= i < |queue| ==> queue[i].node in kids && least <= Promise(kids, v0, start, queue[i])
    ensures BreadthFirst(kids, v0, start, visited, Bfs(kids, visited, queue), least)
    decreases |kids.Keys - visited|, |queue|
  {
    hide Found, Distance, Promise, Ball, Layered, Covered, Behind, Filled, Explored;
    if queue != [] {
      var u := queue[0].node;
      if u in visited {
        SkipKeeps(kids, v0, start, visited, queue);
        BfsOrder(kids, v0, start, visited, queue[1..], least);
      } else {
        SmallerSet(kids.Keys - visited, kids.Keys - (visited + {u}), u);
        VisitKeeps(kids, v0, start, visited, queue);
        FrontFound(kids, v0, start, visited, queue);
        var queue' := queue[1..] + Pushes(kids, visited + {u}, u);
        assert EntryOk(kids, v0, start, visited, queue[0]);
        LeastPromise(kids, v0, start, visited + {u}, queue', u);
        BfsOrder(kids, v0, start, visited + {u}, queue', Distance(kids, v0, start, u));
        BreadthFirstCons(kids, v0, start, visited, queue[0], Bfs(kids, visited + {u}, queue'), least);
      }
    }
  }

  lemma LeastPromise(kids: map<Ptr, seq<Ptr>>, v0: set<Ptr>, start: Ptr, visited: set<Ptr>, queue: seq<Visit>, u: Ptr)
    requires Frontier(kids, v0, start, visited, queue) && u in visited && u !in v0
    ensures forall i {:trigger queue[i]} :: 0 <= i < |queue| ==>
              queue[i].node in kids && Distance(kids, v0, start, u) <= Promise(kids, v0, start, queue[i])
  {
    hide Found, Distance, Promise, Ball, Layered, Covered, Filled, Explored;
    forall i | 0 <= i < |queue| ensures queue[i].node in kids {
      assert EntryOk(kids, v0, start, visited, queue[i]);
    }
  }

  /** When the queue is empty everything reachable has been visited. */
  lemma {:induction false} EmptyQueue(kids: map<Ptr, seq<Ptr>>, v0: set<Ptr>, start: Ptr, visited: set<Ptr>, d: nat)
    requires Frontier(kids, v0, start, visited, [])
    ensures Ball(kids, v0, start, d) <= visited
    decreases d
  {
    hide Ball, Distance, Promise, Layered, Behind, Filled;
    if d == 0 {
      BallZero(kids, v0, start);
    } else {
      EmptyQueue(kids, v0, start, visited, d - 1);
      BallOutside(kids, v0, start, d - 1);
      forall k | k in Ball(kids, v0, start, d) ensures k in visited {
        if k !in Ball(kids, v0, start, d - 1) {
          var u := BallNext(kids, v0, start, d - 1, k);
          assert u in visited;
        }
      }
    }
  }

  lemma {:induction false} BfsComplete(kids: map<Ptr, seq<Ptr>>, v0: set<Ptr>, start: Ptr, visited: set<Ptr>, queue: seq<Visit>)
    requires Frontier(kids, v0, start, visited, queue) && forall i {:trigger queue[i]} :: 0 <= i < |queue| ==> queue[i].node in kids
    ensures forall n :: Reachable(kids, v0, start, n) <==> (n in visited && n !in v0) || n in NodesOf(Bfs(kids, visited, queue))
    decreases |kids.Keys - visited|, |queue|
  {
    hide Distance, Promise, Ball, Layered, Covered, Behind, Filled;
    if queue == [] {
      forall n ensures Reachable(kids, v0, start, n) <==> n in visited && n !in v0 {
        if d: nat :| n in Ball(kids, v0, start, d) {
          EmptyQueue(kids, v0, start, visited, d);
          BallOutside(kids, v0, start, d);
        }
      }
    } else {
      var u := queue[0].node;
      if u in visited {
        SkipKeeps(kids, v0, start, visited, queue);
        BfsComplete(kids, v0, start, visited, queue[1..]);
      } else {
        SmallerSet(kids.Keys - visited, kids.Keys - (visited + {u}), u);
        VisitKeeps(kids, v0, start, visited, queue);
        var queue' := queue[1..] + Pushes(kids, visited + {u}, u);
        LeastPromise(kids, v0, start, visited + {u}, queue', u);
        BfsComplete(kids, v0, start, visited + {u}, queue');
        NodesOfCons(queue[0], Bfs(kids, visited + {u}, queue'));
        assert u !in v0 by { assert EntryOk(kids, v0, start, visited, queue[0]); }
      }
    }
  }

  lemma OneMoreVisited(r: seq<Visit>, v: Visit)
    ensures NodesOf(r + [v]) == NodesOf(r) + {v.node}
  {
    var all := r + [v];
    forall n ensures n in NodesOf(all) <==> n == v.node || n in NodesOf(r) {
      if n in NodesOf(r) {
        var i :| 0 <= i < |r| && r[i].node == n;
        assert all[i].node == n;
      }
      if n == v.node { assert all[|r|].node == n; }
    }
  }

  lemma NodesOfCons(q: Visit, r: seq<Visit>)
    ensures NodesOf([q] + r) == {q.node} + NodesOf(r)
  {
    var all := [q] + r;
    forall n ensures n in NodesOf(all) <==> n == q.node || n in NodesOf(r) {
      if n in NodesOf(r) {
        var i :| 0 <= i < |r| && r[i].node == n;
        assert all[i + 1].node == n;
      }
      if n == q.node { assert all[0].node == n; }
    }
  }

  /**
   `traverse` from `start`, with the nodes of `v0` flagged visited beforehand: it visits exactly the nodes
   reachable from `start` through unflagged nodes, each once, in ascending distance, and each but the first
   from a parent visited earlier, one step nearer and with an edge to it.
   */
  lemma TraverseIsBreadthFirst(kids: map<Ptr, seq<Ptr>>, v0: set<Ptr>, start: Ptr)
    requires Closed(kids) && start in kids && start !in v0
    ensures var r := Traverse(kids, v0, start);
            && (forall n :: n in NodesOf(r) <==> Reachable(kids, v0, start, n))
            && BreadthFirst(kids, v0, start, v0, r, 0)
  {
    var queue := [Visit(start, None)];
    assert Promise(kids, v0, start, queue[0]) == 0;
    hide Distance, Ball, Closed;
    assert Frontier(kids, v0, start, v0, queue);
    BfsOrder(kids, v0, start, v0, queue, 0);
    BfsComplete(kids, v0, start, v0, queue);
  }
}
