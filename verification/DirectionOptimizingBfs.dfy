/** Breadth-first search that switches between expanding a queue and scanning all unvisited vertices, run by one thread.

    The heuristic decides from degree estimates and two parameters; nothing here depends on what it decides. */
module DirectionOptimizingBfs {
  import opened FiniteSets

  type Adjacency = seq<seq<nat>>

  // ----- Distances -----

  predicate IsGraph(adj: Adjacency) {
    forall u, i | 0 <= u < |adj| && 0 <= i < |adj[u]| :: adj[u][i] < |adj|
  }

  predicate IsSymmetric(adj: Adjacency) {
    forall u, v | 0 <= u < |adj| && 0 <= v < |adj| && v in adj[u] :: u in adj[v]
  }

  lemma {:induction false} BothWays(adj: Adjacency, u: nat, v: nat)
    requires IsSymmetric(adj) && u < |adj| && v < |adj|
    ensures v in adj[u] <==> u in adj[v]
  {
  }

  /** The neighbours of a set of vertices. */
  function Neighbours(adj: Adjacency, s: set<nat>): set<nat> {
    set u, i | u in s && u < |adj| && 0 <= i < |adj[u]| :: adj[u][i]
  }

  /** The vertices within `k` edges of `s`. */
  function Ball(adj: Adjacency, s: nat, k: nat): set<nat> {
    if k == 0 then {s} else Ball(adj, s, k - 1) + Neighbours(adj, Ball(adj, s, k - 1))
  }

  /** The vertices at distance `k`. */
  function Fringe(adj: Adjacency, s: nat, k: nat): set<nat> {
    if k == 0 then {s} else Ball(adj, s, k) - Ball(adj, s, k - 1)
  }

  ghost predicate Reachable(adj: Adjacency, s: nat, v: nat) {
    exists k: nat :: v in Ball(adj, s, k)
  }

  /** `p` is a neighbour of `v` one level closer to the source. */
  ghost predicate ChildOf(adj: Adjacency, s: nat, v: nat, p: nat) {
    p < |adj| && v in adj[p] && exists k: nat :: v in Fringe(adj, s, k + 1) && p in Fringe(adj, s, k)
  }

  lemma {:induction false} BallBound(adj: Adjacency, s: nat, k: nat)
    requires IsGraph(adj) && s < |adj|
    ensures forall v | v in Ball(adj, s, k) :: v < |adj|
    ensures |Ball(adj, s, k)| <= |adj|
  {
    if k > 0 {
      BallBound(adj, s, k - 1);
    }
    SubsetSize(Ball(adj, s, k), Upto(|adj|));
  }

  lemma {:induction false} BallMonotone(adj: Adjacency, s: nat, i: nat, k: nat)
    requires i <= k
    ensures Ball(adj, s, i) <= Ball(adj, s, k)
  {
    if i < k {
      BallMonotone(adj, s, i, k - 1);
    }
  }

  lemma {:induction false} NeighbourIn(adj: Adjacency, s: set<nat>, u: nat, v: nat)
    requires u in s && u < |adj| && v in adj[u]
    ensures v in Neighbours(adj, s)
  {
    var i :| 0 <= i < |adj[u]| && adj[u][i] == v;
  }

  /** The neighbours of a ball are in the next one. */
  lemma {:induction false} NeighbourBall(adj: Adjacency, s: nat, k: nat, u: nat, v: nat)
    ensures k > 0 && u in Ball(adj, s, k - 1) && u < |adj| && v in adj[u] ==> v in Ball(adj, s, k)
  {
    if k > 0 && u in Ball(adj, s, k - 1) && u < |adj| && v in adj[u] {
      NeighbourIn(adj, Ball(adj, s, k - 1), u, v);
    }
  }

  /** The ball at `k + 1` adds the neighbours of the fringe at `k`. */
  lemma {:induction false} BallFromFringe(adj: Adjacency, s: nat, k: nat, v: nat)
    ensures v in Ball(adj, s, k + 1) <==>
            v in Ball(adj, s, k) || exists u :: u in Fringe(adj, s, k) && u < |adj| && v in adj[u]
  {
    if v in Ball(adj, s, k + 1) && v !in Ball(adj, s, k) {
      var u, i :| u in Ball(adj, s, k) && u < |adj| && 0 <= i < |adj[u]| && adj[u][i] == v;
      NeighbourBall(adj, s, k, u, v);
      assert u in Fringe(adj, s, k) && v in adj[u];
    }
    if u :| u in Fringe(adj, s, k) && u < |adj| && v in adj[u] {
      NeighbourIn(adj, Ball(adj, s, k), u, v);
    }
  }

  /** Once a level is empty nothing lies beyond it. */
  lemma {:induction false} EmptyFringe(adj: Adjacency, s: nat, d: nat, k: nat)
    requires Fringe(adj, s, d) == {}
    ensures Ball(adj, s, k) <= Ball(adj, s, d)
    decreases k
  {
    if k <= d {
      BallMonotone(adj, s, k, d);
    } else {
      EmptyFringe(adj, s, d, k - 1);
      BallMonotone(adj, s, d - 1, d);
      assert Ball(adj, s, d) == Ball(adj, s, d - 1);
      forall v | v in Neighbours(adj, Ball(adj, s, k - 1)) ensures v in Ball(adj, s, d) {
        var u, i :| u in Ball(adj, s, k - 1) && u < |adj| && 0 <= i < |adj[u]| && adj[u][i] == v;
        NeighbourBall(adj, s, d, u, v);
      }
    }
  }

  /** On a symmetric graph an unvisited vertex that sees a visited one sees it on the last level. */
  lemma {:induction false} SeesFringeOnly(adj: Adjacency, s: nat, d: nat, v: nat, y: nat)
    requires IsGraph(adj) && IsSymmetric(adj) && v < |adj| && v !in Ball(adj, s, d) && y in adj[v] && y in Ball(adj, s, d)
    ensures y in Fringe(adj, s, d)
  {
    var i :| 0 <= i < |adj[v]| && adj[v][i] == y;
    NeighbourBall(adj, s, d, y, v);
  }

  // ----- The parent array -----

  ghost predicate ParentOk(adj: Adjacency, s: nat, p: int, v: nat) {
    if v == s then p == s else p >= 0 && ChildOf(adj, s, v, p)
  }

  ghost predicate TreeAt(adj: Adjacency, s: nat, parent: seq<int>, visited: set<nat>, v: nat)
    requires v < |parent|
  {
    if v in visited then parent[v] != -1 && ParentOk(adj, s, parent[v], v) else parent[v] == -1
  }

  /** Exactly the vertices in `visited` have a parent, one level closer to the source. */
  ghost predicate Tree(adj: Adjacency, s: nat, parent: seq<int>, visited: set<nat>) {
    && |parent| == |adj|
    && forall v {:trigger TreeAt(adj, s, parent, visited, v)} | 0 <= v < |parent| :: TreeAt(adj, s, parent, visited, v)
  }

  lemma {:induction false} AddChild(adj: Adjacency, s: nat, parent: seq<int>, visited: set<nat>, d: nat, v: nat, p: nat)
    requires Tree(adj, s, parent, visited) && v < |parent| && v !in visited && s in visited
    requires v in Fringe(adj, s, d + 1) && p in Fringe(adj, s, d) && p < |adj| && v in adj[p]
    ensures Tree(adj, s, parent[v := p], visited + {v})
  {
    assert ChildOf(adj, s, v, p);
    var parent', visited' := parent[v := p], visited + {v};
    forall x | 0 <= x < |parent| ensures TreeAt(adj, s, parent', visited', x) {
      assert TreeAt(adj, s, parent, visited, x);
    }
  }

  // ----- The sliding queue -----

  /** Double-buffered: what is pushed is not seen until the window slides. */
  class SlidingQueue {
    const shared: array<int>
    var sharedIn: nat
    var outStart: nat
    var outEnd: nat

    ghost predicate Valid()
      reads this
    {
      outStart <= outEnd <= sharedIn <= shared.Length
    }

    ghost function Window(): seq<int>
      reads this, shared
      requires Valid()
    {
      shared[outStart..outEnd]
    }

    ghost function Pushed(): seq<int>
      reads this, shared
      requires Valid()
    {
      shared[outEnd..sharedIn]
    }

    ghost function All(): seq<int>
      reads this, shared
      requires Valid()
    {
      shared[..sharedIn]
    }

    constructor (size: nat)
      ensures Valid() && fresh(shared) && shared.Length == size && sharedIn == outStart == outEnd == 0
    {
      shared := new int[size];
      sharedIn, outStart, outEnd := 0, 0, 0;
    }

    method PushBack(x: int)
      requires Valid() && sharedIn < shared.Length
      modifies this`sharedIn, shared
      ensures Valid() && Window() == old(Window()) && Pushed() == old(Pushed()) + [x] && All() == old(All()) + [x]
    {
      shared[sharedIn] := x;
      sharedIn := sharedIn + 1;
    }

    method SlideWindow()
      requires Valid()
      modifies this`outStart, this`outEnd
      ensures Valid() && Window() == old(Pushed()) && Pushed() == [] && All() == old(All())
    {
      outStart := outEnd;
      outEnd := sharedIn;
    }

    predicate Empty()
      reads this
      requires Valid()
      ensures Empty() <==> Window() == []
    {
      outStart == outEnd
    }

    function Size(): (n: nat)
      reads this
      requires Valid()
      ensures n == |Window()|
    {
      outEnd - outStart
    }
  }

  class Bitmap {
    var bits: array<bool>

    constructor (size: nat)
      ensures fresh(bits) && bits.Length == size
    {
      bits := new bool[size];
    }

    method Reset()
      modifies bits
      ensures forall v | 0 <= v < bits.Length :: !bits[v]
    {
      for v := 0 to bits.Length
        invariant forall w | 0 <= w < v :: !bits[w]
        modifies bits
      {
        bits[v] := false;
      }
    }

    method SetBit(v: nat)
      requires v < bits.Length
      modifies bits
      ensures bits[..] == old(bits[..])[v := true]
    {
      bits[v] := true;
    }

    predicate GetBit(v: nat)
      reads this, bits
      requires v < bits.Length
    {
      bits[v]
    }

    method Swap(other: Bitmap)
      modifies this, other
      ensures bits == old(other.bits) && other.bits == old(bits)
    {
      bits, other.bits := other.bits, bits;
    }
  }

  /** What has ever been queued is distinct and visited, so the queue has room for one more vertex. */
  ghost predicate QueuedOnce(adj: Adjacency, all: seq<int>, visited: set<nat>) {
    && (forall k | 0 <= k < |all| :: 0 <= all[k] < |adj| && all[k] in visited)
    && (forall j, k | 0 <= j < k < |all| :: all[j] != all[k])
  }

  lemma {:induction false} RoomForOne(adj: Adjacency, all: seq<int>, visited: set<nat>, v: nat)
    requires QueuedOnce(adj, all, visited) && v < |adj| && v !in visited
    ensures |all| < |adj| && QueuedOnce(adj, all + [v], visited + {v})
  {
    var f: seq<nat> := seq(|all| + 1, k requires 0 <= k < |all| + 1 => if k < |all| then all[k] else v);
    Pigeonhole(f, |adj|);
  }

  /** The elements of a sequence of vertices. */
  ghost predicate Lists(xs: seq<int>, s: set<nat>) {
    (forall k | 0 <= k < |xs| :: xs[k] >= 0 && xs[k] in s) && (forall v | v in s :: v in xs)
  }

  // ----- The step functions -----

  /** Vertices visited when a top-down step at depth `d` has pushed `pushed`. */
  ghost function Visited(adj: Adjacency, s: nat, d: nat, pushed: seq<int>): set<nat> {
    Ball(adj, s, d) + set k | 0 <= k < |pushed| && pushed[k] >= 0 :: pushed[k]
  }

  /** In the middle of a top-down step. */
  ghost predicate Expanding(adj: Adjacency, s: nat, d: nat, parent: seq<int>, window: seq<int>, pushed: seq<int>, all: seq<int>) {
    && IsGraph(adj) && s < |adj|
    && Tree(adj, s, parent, Visited(adj, s, d, pushed))
    && Lists(window, Fringe(adj, s, d))
    && (forall k | 0 <= k < |pushed| :: pushed[k] >= 0 && pushed[k] in Fringe(adj, s, d + 1))
    && QueuedOnce(adj, all, Visited(adj, s, d, pushed))
  }

  lemma {:induction false} PushOne(adj: Adjacency, s: nat, d: nat, parent: seq<int>, window: seq<int>, pushed: seq<int>,
                                   all: seq<int>, u: nat, v: nat)
    requires Expanding(adj, s, d, parent, window, pushed, all) && u < |adj| && v in adj[u] && u in window
    requires v < |parent| && parent[v] == -1
    ensures |all| < |adj| && Expanding(adj, s, d, parent[v := u], window, pushed + [v], all + [v])
  {
    var visited := Visited(adj, s, d, pushed);
    BallMonotone(adj, s, 0, d);
    assert TreeAt(adj, s, parent, visited, v);
    assert v !in visited && u in Fringe(adj, s, d);
    BallFromFringe(adj, s, d, v);
    assert v in Fringe(adj, s, d + 1);
    AddChild(adj, s, parent, visited, d, v, u);
    RoomForOne(adj, all, visited, v);
    VisitedPush(adj, s, d, pushed, v);
  }

  lemma {:induction false} VisitedPush(adj: Adjacency, s: nat, d: nat, pushed: seq<int>, v: nat)
    ensures Visited(adj, s, d, pushed + [v]) == Visited(adj, s, d, pushed) + {v}
  {
    var more := pushed + [v];
    assert more[|pushed|] == v;
    forall x | x in Visited(adj, s, d, pushed) ensures x in Visited(adj, s, d, more) {
      if x !in Ball(adj, s, d) {
        var k :| 0 <= k < |pushed| && pushed[k] >= 0 && pushed[k] == x;
        assert more[k] == x;
      }
    }
  }

  /** All neighbours of `u` up to number `j` are visited. */
  ghost predicate Covered(adj: Adjacency, parent: seq<int>, u: nat, j: nat)
    requires u < |adj| == |parent| && j <= |adj[u]|
  {
    forall i | 0 <= i < j && adj[u][i] < |parent| :: parent[adj[u][i]] != -1
  }

  ghost predicate AllCovered(adj: Adjacency, parent: seq<int>, window: seq<int>, i: nat)
    requires |adj| == |parent| && i <= |window|
  {
    forall k | 0 <= k < i && 0 <= window[k] < |adj| :: Covered(adj, parent, window[k], |adj[window[k]]|)
  }

  ghost predicate MoreVisited(a: seq<int>, b: seq<int>) {
    |a| == |b| && forall v | 0 <= v < |a| && a[v] != -1 :: b[v] != -1
  }

  /** The state of a top-down step. */
  ghost predicate Stepping(adj: Adjacency, s: nat, d: nat, parent: array<int>, queue: SlidingQueue, window: seq<int>)
    reads parent, queue, queue.shared
  {
    && queue.Valid() && queue.shared.Length == parent.Length == |adj| && parent != queue.shared && queue.Window() == window
    && Expanding(adj, s, d, parent[..], window, queue.Pushed(), queue.All())
  }

  /** The degree estimates of a list of vertices, summed. */
  function DegreesOf(deg: seq<int>, xs: seq<int>): int {
    if xs == [] then 0
    else DegreesOf(deg, xs[..|xs| - 1]) + (if 0 <= xs[|xs| - 1] < |deg| then deg[xs[|xs| - 1]] else 0)
  }

  lemma {:induction false} DegreesPush(deg: seq<int>, xs: seq<int>, v: nat)
    requires v < |deg|
    ensures DegreesOf(deg, xs + [v]) == DegreesOf(deg, xs) + deg[v]
  {
    assert (xs + [v])[..|xs|] == xs;
  }

  /** Visits one neighbour of `u`; its degree estimate counts if it is new. */
  method VisitNeighbour(adj: Adjacency, u: nat, v: nat, deg: seq<int>, parent: array<int>, queue: SlidingQueue,
                        ghost s: nat, ghost d: nat, ghost window: seq<int>)
    returns (scout: int)
    requires Stepping(adj, s, d, parent, queue, window) && u in window && u < |adj| == |deg| && v in adj[u] && v < |adj|
    modifies parent, queue`sharedIn, queue.shared
    ensures Stepping(adj, s, d, parent, queue, window) && parent[v] != -1 && MoreVisited(old(parent[..]), parent[..])
    ensures DegreesOf(deg, queue.Pushed()) == old(DegreesOf(deg, queue.Pushed())) + scout
  {
    scout := 0;
    if parent[v] == -1 {
      Discover(adj, u, v, parent, queue, s, d, window);
      DegreesPush(deg, old(queue.Pushed()), v);
      scout := deg[v];
    }
  }

  /** Gives `v` its parent and queues it. */
  method Discover(adj: Adjacency, u: nat, v: nat, parent: array<int>, queue: SlidingQueue, ghost s: nat, ghost d: nat,
                  ghost window: seq<int>)
    requires Stepping(adj, s, d, parent, queue, window) && u in window && u < |adj| && v in adj[u] && v < |adj|
    requires parent[v] == -1
    modifies parent, queue`sharedIn, queue.shared
    ensures Stepping(adj, s, d, parent, queue, window) && parent[..] == old(parent[..])[v := u]
    ensures queue.Pushed() == old(queue.Pushed()) + [v]
  {
    PushOne(adj, s, d, parent[..], window, queue.Pushed(), queue.All(), u, v);
    ghost var before := parent[..];
    parent[v] := u;
    assert parent[..] == before[v := u];
    queue.PushBack(v);
  }

  lemma {:induction false} CoverMore(adj: Adjacency, a: seq<int>, b: seq<int>, u: nat, j: nat)
    requires u < |adj| == |a| && j < |adj[u]| && Covered(adj, a, u, j) && MoreVisited(a, b)
    requires adj[u][j] < |b| ==> b[adj[u][j]] != -1
    ensures Covered(adj, b, u, j + 1)
  {
  }

  method ExpandVertex(adj: Adjacency, u: nat, deg: seq<int>, parent: array<int>, queue: SlidingQueue,
                      ghost s: nat, ghost d: nat, ghost window: seq<int>)
    returns (scout: int)
    requires Stepping(adj, s, d, parent, queue, window) && u in window && u < |adj| == |deg|
    modifies parent, queue`sharedIn, queue.shared
    ensures Stepping(adj, s, d, parent, queue, window)
    ensures Covered(adj, parent[..], u, |adj[u]|) && MoreVisited(old(parent[..]), parent[..])
    ensures DegreesOf(deg, queue.Pushed()) == old(DegreesOf(deg, queue.Pushed())) + scout
  {
    scout := 0;
    for j := 0 to |adj[u]|
      invariant Stepping(adj, s, d, parent, queue, window)
      invariant Covered(adj, parent[..], u, j) && MoreVisited(old(parent[..]), parent[..])
      invariant DegreesOf(deg, queue.Pushed()) == old(DegreesOf(deg, queue.Pushed())) + scout
    {
      ghost var before := parent[..];
      var x := VisitNeighbour(adj, u, adj[u][j], deg, parent, queue, s, d, window);
      CoverMore(adj, before, parent[..], u, j);
      scout := scout + x;
    }
  }

  lemma {:induction false} CoveredStays(adj: Adjacency, a: seq<int>, b: seq<int>, window: seq<int>, i: nat)
    requires |adj| == |a| && MoreVisited(a, b) && i <= |window| && AllCovered(adj, a, window, i)
    ensures AllCovered(adj, b, window, i)
  {
    forall k | 0 <= k < i && 0 <= window[k] < |adj| ensures Covered(adj, b, window[k], |adj[window[k]]|) {
      assert Covered(adj, a, window[k], |adj[window[k]]|);
    }
  }

  /** A neighbour of the window is visited. */
  lemma {:induction false} ExpandedVertex(adj: Adjacency, s: nat, parent: seq<int>, visited: set<nat>, window: seq<int>, u: nat, v: nat)
    requires IsGraph(adj) && Tree(adj, s, parent, visited) && AllCovered(adj, parent, window, |window|)
    requires u in window && u < |adj| && v in adj[u]
    ensures v < |adj| && v in visited
  {
    var k :| 0 <= k < |window| && window[k] == u;
    assert Covered(adj, parent, window[k], |adj[window[k]]|);
    var i :| 0 <= i < |adj[u]| && adj[u][i] == v;
    assert parent[adj[u][i]] != -1;
    assert TreeAt(adj, s, parent, visited, v);
  }

  lemma {:induction false} PushedWithin(adj: Adjacency, s: nat, d: nat, pushed: seq<int>)
    requires forall k | 0 <= k < |pushed| :: pushed[k] >= 0 && pushed[k] in Fringe(adj, s, d + 1)
    ensures Visited(adj, s, d, pushed) <= Ball(adj, s, d + 1)
  {
    BallMonotone(adj, s, d, d + 1);
  }

  /** A finished top-down step has visited exactly the next ball and pushed exactly the next level. */
  lemma {:induction false} ExpandedLevel(adj: Adjacency, s: nat, d: nat, parent: seq<int>, window: seq<int>, pushed: seq<int>,
                                         all: seq<int>)
    requires Expanding(adj, s, d, parent, window, pushed, all) && AllCovered(adj, parent, window, |window|)
    ensures Visited(adj, s, d, pushed) == Ball(adj, s, d + 1) && Lists(pushed, Fringe(adj, s, d + 1))
  {
    PushedWithin(adj, s, d, pushed);
    forall v | v in Ball(adj, s, d + 1) ensures v in Visited(adj, s, d, pushed) {
      BallFromFringe(adj, s, d, v);
      if v !in Ball(adj, s, d) {
        var u :| u in Fringe(adj, s, d) && u < |adj| && v in adj[u];
        ExpandedVertex(adj, s, parent, Visited(adj, s, d, pushed), window, u, v);
      }
    }
  }

  lemma {:induction false} CoverWindow(adj: Adjacency, a: seq<int>, b: seq<int>, window: seq<int>, i: nat)
    requires |adj| == |a| && MoreVisited(a, b) && i < |window| && AllCovered(adj, a, window, i)
    requires 0 <= window[i] < |adj| ==> Covered(adj, b, window[i], |adj[window[i]]|)
    ensures AllCovered(adj, b, window, i + 1)
  {
    CoveredStays(adj, a, b, window, i);
  }

  /** Expands every vertex of the window. */
  method TDStep(adj: Adjacency, deg: seq<int>, parent: array<int>, queue: SlidingQueue, ghost s: nat, ghost d: nat)
    returns (scoutCount: int)
    requires queue.Valid() && queue.Pushed() == [] && Stepping(adj, s, d, parent, queue, queue.Window()) && |deg| == |adj|
    modifies parent, queue`sharedIn, queue.shared
    ensures queue.Valid() && Tree(adj, s, parent[..], Ball(adj, s, d + 1))
    ensures Lists(queue.Pushed(), Fringe(adj, s, d + 1)) && QueuedOnce(adj, queue.All(), Ball(adj, s, d + 1))
    ensures scoutCount == DegreesOf(deg, queue.Pushed())
  {
    scoutCount := 0;
    ghost var window := queue.Window();
    var first, last := queue.outStart, queue.outEnd;
    for i := first to last
      invariant Stepping(adj, s, d, parent, queue, window) && queue.outStart == first && queue.outEnd == last
      invariant AllCovered(adj, parent[..], window, i - first) && scoutCount == DegreesOf(deg, queue.Pushed())
    {
      var scout := ExpandWindow(adj, i - first, deg, parent, queue, s, d, window);
      scoutCount := scoutCount + scout;
    }
    ExpandedLevel(adj, s, d, parent[..], window, queue.Pushed(), queue.All());
  }

  method ExpandWindow(adj: Adjacency, k: nat, deg: seq<int>, parent: array<int>, queue: SlidingQueue,
                      ghost s: nat, ghost d: nat, ghost window: seq<int>)
    returns (scout: int)
    requires Stepping(adj, s, d, parent, queue, window) && k < |window| && |deg| == |adj|
    requires AllCovered(adj, parent[..], window, k)
    modifies parent, queue`sharedIn, queue.shared
    ensures Stepping(adj, s, d, parent, queue, window) && AllCovered(adj, parent[..], window, k + 1)
    ensures DegreesOf(deg, queue.Pushed()) == old(DegreesOf(deg, queue.Pushed())) + scout
  {
    var u := queue.shared[queue.outStart + k];
    assert u == window[k];
    BallBound(adj, s, d);
    ghost var before := parent[..];
    scout := ExpandVertex(adj, u, deg, parent, queue, s, d, window);
    CoverWindow(adj, before, parent[..], window, k);
  }

  ghost predicate FrontAt(adj: Adjacency, s: nat, d: nat, front: seq<bool>, y: nat)
    requires y < |front|
  {
    (front[y] ==> y in Ball(adj, s, d)) && (y in Fringe(adj, s, d) ==> front[y])
  }

  /** The bits cover the last level; bits left over from earlier levels are allowed. */
  ghost predicate FrontOk(adj: Adjacency, s: nat, d: nat, front: seq<bool>) {
    && |front| == |adj|
    && forall y: nat {:trigger FrontAt(adj, s, d, front, y)} | y < |front| :: FrontAt(adj, s, d, front, y)
  }

  ghost function Below(s: set<nat>, i: nat): set<nat> {
    set v | v in s && v < i
  }

  /** The vertices of level `d + 1` below `i`. */
  ghost function NewBelow(adj: Adjacency, s: nat, d: nat, i: nat): set<nat> {
    Below(Fringe(adj, s, d + 1), i)
  }

  /** In the middle of a bottom-up step, which has looked at the vertices below `i`. */
  ghost predicate Rising(adj: Adjacency, s: nat, d: nat, parent: seq<int>, front: seq<bool>, next: seq<bool>, i: nat) {
    && IsGraph(adj) && IsSymmetric(adj) && s < |adj| && |next| == |adj|
    && FrontOk(adj, s, d, front)
    && Tree(adj, s, parent, Ball(adj, s, d) + NewBelow(adj, s, d, i))
    && Marks(next, NewBelow(adj, s, d, i))
  }

  ghost predicate MarkAt(bits: seq<bool>, s: set<nat>, v: nat)
    requires v < |bits|
  {
    bits[v] <==> v in s
  }

  ghost predicate Marks(bits: seq<bool>, s: set<nat>) {
    forall v: nat {:trigger MarkAt(bits, s, v)} | v < |bits| :: MarkAt(bits, s, v)
  }

  lemma {:induction false} BelowStep(s: set<nat>, i: nat)
    ensures Below(s, i + 1) == Below(s, i) + (if i in s then {i} else {})
    ensures |Below(s, i + 1)| == |Below(s, i)| + (if i in s then 1 else 0)
  {
    assert Below(s, i + 1) == Below(s, i) + (if i in s then {i} else {});
  }

  lemma {:induction false} NewBelowStep(adj: Adjacency, s: nat, d: nat, i: nat)
    ensures NewBelow(adj, s, d, i + 1) == NewBelow(adj, s, d, i) + (if i in Fringe(adj, s, d + 1) then {i} else {})
    ensures |NewBelow(adj, s, d, i + 1)| == |NewBelow(adj, s, d, i)| + (if i in Fringe(adj, s, d + 1) then 1 else 0)
  {
    BelowStep(Fringe(adj, s, d + 1), i);
  }

  /** An unvisited vertex sees the front exactly if it is on the next level, and what it sees is on the last level: stale
      bits do no harm. */
  lemma {:induction false} FrontDecides(adj: Adjacency, s: nat, d: nat, front: seq<bool>, v: nat, p: int)
    requires IsGraph(adj) && IsSymmetric(adj) && s < |adj| && FrontOk(adj, s, d, front) && v < |adj| && v !in Ball(adj, s, d)
    requires if p == -1 then forall y | y in adj[v] && y < |front| :: !front[y]
             else 0 <= p < |front| && p in adj[v] && front[p]
    ensures p != -1 <==> v in Fringe(adj, s, d + 1)
    ensures p != -1 ==> p in Fringe(adj, s, d) && v in adj[p]
  {
    BallFromFringe(adj, s, d, v);
    if p != -1 {
      assert FrontAt(adj, s, d, front, p);
      SeesFringeOnly(adj, s, d, v, p);
    } else {
      forall u | u in Fringe(adj, s, d) && u < |adj| ensures v !in adj[u] {
        BothWays(adj, u, v);
        assert FrontAt(adj, s, d, front, u);
      }
    }
  }

  /** The first neighbour whose bit is set, or -1. */
  method FindInFront(adj: Adjacency, v: nat, front: Bitmap) returns (p: int)
    requires v < |adj| == front.bits.Length && IsGraph(adj)
    ensures if p == -1 then forall y | y in adj[v] && y < |adj| :: !front.bits[y]
            else 0 <= p < |adj| && p in adj[v] && front.bits[p]
  {
    p := -1;
    for j := 0 to |adj[v]|
      invariant p == -1 && forall k | 0 <= k < j :: !front.bits[adj[v][k]]
    {
      if front.GetBit(adj[v][j]) {
        p := adj[v][j];
        break;
      }
    }
  }

  lemma {:induction false} RiseUnseen(adj: Adjacency, s: nat, d: nat, parent: seq<int>, front: seq<bool>, next: seq<bool>, i: nat)
    requires Rising(adj, s, d, parent, front, next, i) && i < |adj| && i !in Fringe(adj, s, d + 1)
    ensures Rising(adj, s, d, parent, front, next, i + 1)
  {
    NewBelowStep(adj, s, d, i);
    assert NewBelow(adj, s, d, i + 1) == NewBelow(adj, s, d, i);
  }

  lemma {:induction false} RiseTree(adj: Adjacency, s: nat, d: nat, parent: seq<int>, i: nat, p: nat)
    requires Tree(adj, s, parent, Ball(adj, s, d) + NewBelow(adj, s, d, i)) && i < |adj| && parent[i] == -1
    requires i in Fringe(adj, s, d + 1) && p in Fringe(adj, s, d) && p < |adj| && i in adj[p]
    ensures Tree(adj, s, parent[i := p], Ball(adj, s, d) + NewBelow(adj, s, d, i + 1))
  {
    NewBelowStep(adj, s, d, i);
    BallMonotone(adj, s, 0, d);
    var visited := Ball(adj, s, d) + NewBelow(adj, s, d, i);
    AddChild(adj, s, parent, visited, d, i, p);
    assert visited + {i} == Ball(adj, s, d) + NewBelow(adj, s, d, i + 1);
  }

  lemma {:induction false} RiseMarks(next: seq<bool>, s: set<nat>, i: nat)
    requires Marks(next, Below(s, i)) && i < |next| && i in s
    ensures Marks(next[i := true], Below(s, i + 1))
  {
    var next', more := next[i := true], Below(s, i + 1);
    forall v: nat | v < |next| ensures MarkAt(next', more, v) {
      assert MarkAt(next, Below(s, i), v);
    }
  }

  lemma {:induction false} RiseOver(adj: Adjacency, s: nat, d: nat, parent: seq<int>, front: seq<bool>, next: seq<bool>, i: nat,
                                    p: int)
    requires Rising(adj, s, d, parent, front, next, i) && i < |adj| && parent[i] == -1
    requires if p == -1 then forall y | y in adj[i] && y < |front| :: !front[y]
             else 0 <= p < |front| && p in adj[i] && front[p]
    ensures p == -1 ==> Rising(adj, s, d, parent, front, next, i + 1) && i !in Fringe(adj, s, d + 1)
    ensures p != -1 ==> Rising(adj, s, d, parent[i := p], front, next[i := true], i + 1) && i in Fringe(adj, s, d + 1)
  {
    assert TreeAt(adj, s, parent, Ball(adj, s, d) + NewBelow(adj, s, d, i), i);
    FrontDecides(adj, s, d, front, i, p);
    if p == -1 {
      RiseUnseen(adj, s, d, parent, front, next, i);
    } else {
      RiseTree(adj, s, d, parent, i, p);
      RiseMarks(next, Fringe(adj, s, d + 1), i);
    }
  }

  lemma {:induction false} RisePast(adj: Adjacency, s: nat, d: nat, parent: seq<int>, front: seq<bool>, next: seq<bool>, i: nat)
    requires Rising(adj, s, d, parent, front, next, i) && i < |adj| && parent[i] != -1
    ensures Rising(adj, s, d, parent, front, next, i + 1) && i !in Fringe(adj, s, d + 1)
  {
    assert TreeAt(adj, s, parent, Ball(adj, s, d) + NewBelow(adj, s, d, i), i);
    RiseUnseen(adj, s, d, parent, front, next, i);
  }

  /** One vertex of a bottom-up step. */
  method ScanVertex(adj: Adjacency, i: nat, parent: array<int>, front: Bitmap, next: Bitmap, ghost s: nat, ghost d: nat)
    returns (awake: nat)
    requires parent.Length == |adj| > i && front.bits != next.bits && front.bits.Length == next.bits.Length == |adj|
    requires Rising(adj, s, d, parent[..], front.bits[..], next.bits[..], i)
    modifies parent, next.bits
    ensures Rising(adj, s, d, parent[..], front.bits[..], next.bits[..], i + 1)
    ensures awake == if i in Fringe(adj, s, d + 1) then 1 else 0
  {
    awake := 0;
    if parent[i] == -1 {
      var p := FindInFront(adj, i, front);
      RiseOver(adj, s, d, parent[..], front.bits[..], next.bits[..], i, p);
      if p != -1 {
        ghost var before := parent[..];
        parent[i] := p;
        assert parent[..] == before[i := p];
        awake := 1;
        next.SetBit(i);
      }
    } else {
      RisePast(adj, s, d, parent[..], front.bits[..], next.bits[..], i);
    }
  }

  lemma {:induction false} RisenSets(adj: Adjacency, s: nat, d: nat)
    requires IsGraph(adj) && s < |adj|
    ensures NewBelow(adj, s, d, |adj|) == Fringe(adj, s, d + 1)
    ensures Ball(adj, s, d) + Fringe(adj, s, d + 1) == Ball(adj, s, d + 1)
  {
    BallBound(adj, s, d + 1);
    BallMonotone(adj, s, d, d + 1);
  }

  lemma {:induction false} MarkedFront(adj: Adjacency, s: nat, d: nat, next: seq<bool>)
    requires |next| == |adj| && Marks(next, Fringe(adj, s, d))
    ensures FrontOk(adj, s, d, next)
  {
    forall y: nat | y < |next| ensures FrontAt(adj, s, d, next, y) {
      assert MarkAt(next, Fringe(adj, s, d), y);
    }
  }

  lemma {:induction false} RisenLevel(adj: Adjacency, s: nat, d: nat, parent: seq<int>, front: seq<bool>, next: seq<bool>)
    requires Rising(adj, s, d, parent, front, next, |adj|)
    ensures Tree(adj, s, parent, Ball(adj, s, d + 1)) && FrontOk(adj, s, d + 1, next)
    ensures Marks(next, Fringe(adj, s, d + 1))
    ensures NewBelow(adj, s, d, |adj|) == Fringe(adj, s, d + 1)
  {
    RisenSets(adj, s, d);
    MarkedFront(adj, s, d + 1, next);
  }

  lemma {:induction false} RiseStart(adj: Adjacency, s: nat, d: nat, parent: seq<int>, front: seq<bool>, next: seq<bool>)
    requires IsGraph(adj) && IsSymmetric(adj) && s < |adj| && |next| == |adj| && FrontOk(adj, s, d, front)
    requires Tree(adj, s, parent, Ball(adj, s, d)) && forall v | 0 <= v < |next| :: !next[v]
    ensures Rising(adj, s, d, parent, front, next, 0) && NewBelow(adj, s, d, 0) == {}
  {
    assert NewBelow(adj, s, d, 0) == {};
    assert Ball(adj, s, d) + {} == Ball(adj, s, d);
    forall v: nat | v < |next| ensures MarkAt(next, {}, v) {}
  }

  /** Gives every unvisited vertex that sees the front a parent in it; counts them and marks them in `next`. */
  method BUStep(adj: Adjacency, parent: array<int>, front: Bitmap, next: Bitmap, ghost s: nat, ghost d: nat)
    returns (awakeCount: nat)
    requires parent.Length == |adj| && front.bits != next.bits && front.bits.Length == next.bits.Length == |adj|
    requires IsGraph(adj) && IsSymmetric(adj) && s < |adj| && FrontOk(adj, s, d, front.bits[..])
    requires Tree(adj, s, parent[..], Ball(adj, s, d))
    modifies parent, next.bits
    ensures Tree(adj, s, parent[..], Ball(adj, s, d + 1)) && FrontOk(adj, s, d + 1, next.bits[..])
    ensures Marks(next.bits[..], Fringe(adj, s, d + 1))
    ensures awakeCount == |Fringe(adj, s, d + 1)|
  {
    next.Reset();
    RiseStart(adj, s, d, parent[..], front.bits[..], next.bits[..]);
    awakeCount := ScanAll(adj, parent, front, next, s, d);
    RisenLevel(adj, s, d, parent[..], front.bits[..], next.bits[..]);
  }

  method ScanAll(adj: Adjacency, parent: array<int>, front: Bitmap, next: Bitmap, ghost s: nat, ghost d: nat)
    returns (awakeCount: nat)
    requires parent.Length == |adj| && front.bits != next.bits && front.bits.Length == next.bits.Length == |adj|
    requires Rising(adj, s, d, parent[..], front.bits[..], next.bits[..], 0) && NewBelow(adj, s, d, 0) == {}
    modifies parent, next.bits
    ensures Rising(adj, s, d, parent[..], front.bits[..], next.bits[..], |adj|)
    ensures awakeCount == |NewBelow(adj, s, d, |adj|)|
  {
    awakeCount := 0;
    for i := 0 to |adj|
      invariant Risen(adj, s, d, parent[..], front.bits[..], next.bits[..], i, awakeCount)
    {
      awakeCount := ScanNext(adj, i, parent, front, next, awakeCount, s, d);
    }
  }

  ghost predicate Risen(adj: Adjacency, s: nat, d: nat, parent: seq<int>, front: seq<bool>, next: seq<bool>, i: nat, awake: nat) {
    Rising(adj, s, d, parent, front, next, i) && awake == |NewBelow(adj, s, d, i)|
  }

  method ScanNext(adj: Adjacency, i: nat, parent: array<int>, front: Bitmap, next: Bitmap, awakeCount: nat, ghost s: nat, ghost d: nat)
    returns (awakeCount': nat)
    requires parent.Length == |adj| > i && front.bits != next.bits && front.bits.Length == next.bits.Length == |adj|
    requires Risen(adj, s, d, parent[..], front.bits[..], next.bits[..], i, awakeCount)
    modifies parent, next.bits
    ensures Risen(adj, s, d, parent[..], front.bits[..], next.bits[..], i + 1, awakeCount')
  {
    var awake := ScanVertex(adj, i, parent, front, next, s, d);
    NewBelowStep(adj, s, d, i);
    awakeCount' := awakeCount + awake;
  }

  /** Sets the bits of the window. */
  method QueueToBitmap(queue: SlidingQueue, bm: Bitmap)
    requires queue.Valid() && forall k | 0 <= k < |queue.Window()| :: 0 <= queue.Window()[k] < bm.bits.Length
    modifies bm.bits
    ensures forall v | 0 <= v < bm.bits.Length :: bm.bits[v] <==> old(bm.bits[v]) || v in queue.Window()
  {
    ghost var window := queue.Window();
    for i := queue.outStart to queue.outEnd
      invariant forall v | 0 <= v < bm.bits.Length :: bm.bits[v] <==> old(bm.bits[v]) || v in window[..i - queue.outStart]
    {
      ghost var j := i - queue.outStart;
      assert queue.Window() == window && queue.shared[i] == window[j];
      assert window[..j + 1] == window[..j] + [window[j]];
      bm.SetBit(queue.shared[i]);
    }
    assert window[..|window|] == window;
  }

  /** Queues the vertices whose bits are set and opens the window on them. */
  method BitmapToQueue(vertexNum: nat, bm: Bitmap, queue: SlidingQueue, ghost adj: Adjacency, ghost visited: set<nat>,
                       ghost marked: set<nat>)
    requires queue.Valid() && queue.Pushed() == [] && vertexNum == bm.bits.Length == queue.shared.Length == |adj|
    requires Marks(bm.bits[..], marked) && QueuedOnce(adj, queue.All(), visited) && marked !! visited
    requires forall v | v in marked :: v < vertexNum
    modifies queue, queue.shared
    ensures queue.Valid() && queue.Pushed() == []
    ensures Lists(queue.Window(), marked) && QueuedOnce(adj, queue.All(), visited + marked)
  {
    BelowPush(visited, marked, 0);
    for n := 0 to vertexNum
      invariant queue.Valid()
      invariant Lists(queue.Pushed(), Below(marked, n)) && QueuedOnce(adj, queue.All(), With(visited, marked, n))
    {
      QueueBit(n, bm, queue, adj, visited, marked);
    }
    queue.SlideWindow();
    BelowAll(visited, marked, vertexNum);
  }

  ghost function With(visited: set<nat>, marked: set<nat>, n: nat): set<nat> {
    visited + Below(marked, n)
  }

  lemma {:induction false} BelowPush(visited: set<nat>, marked: set<nat>, n: nat)
    ensures With(visited, marked, n + 1) == With(visited, marked, n) + (if n in marked then {n} else {})
    ensures Below(marked, 0) == {} && With(visited, marked, 0) == visited
  {
  }

  lemma {:induction false} BelowAll(visited: set<nat>, marked: set<nat>, n: nat)
    requires forall v | v in marked :: v < n
    ensures Below(marked, n) == marked && With(visited, marked, n) == visited + marked
  {
  }

  lemma {:induction false} ListOneMore(xs: seq<int>, marked: set<nat>, n: nat)
    requires Lists(xs, Below(marked, n))
    ensures n in marked ==> Lists(xs + [n], Below(marked, n + 1))
    ensures n !in marked ==> Lists(xs, Below(marked, n + 1))
  {
    BelowStep(marked, n);
  }

  method QueueBit(n: nat, bm: Bitmap, queue: SlidingQueue, ghost adj: Adjacency, ghost visited: set<nat>, ghost marked: set<nat>)
    requires queue.Valid() && n < bm.bits.Length == queue.shared.Length == |adj| && Marks(bm.bits[..], marked)
    requires Lists(queue.Pushed(), Below(marked, n)) && QueuedOnce(adj, queue.All(), With(visited, marked, n))
    requires marked !! visited
    modifies queue`sharedIn, queue.shared
    ensures queue.Valid()
    ensures Lists(queue.Pushed(), Below(marked, n + 1)) && QueuedOnce(adj, queue.All(), With(visited, marked, n + 1))
  {
    BelowPush(visited, marked, n);
    ListOneMore(queue.Pushed(), marked, n);
    assert MarkAt(bm.bits[..], marked, n);
    if bm.GetBit(n) {
      RoomForOne(adj, queue.All(), With(visited, marked, n), n);
      queue.PushBack(n);
    }
  }

  // ----- The whole search -----

  /** How many vertices have no parent yet. */
  function Unvisited(parent: seq<int>): nat {
    if parent == [] then 0 else Unvisited(parent[..|parent| - 1]) + (if parent[|parent| - 1] == -1 then 1 else 0)
  }

  lemma {:induction false} UnvisitedBelow(adj: Adjacency, s: nat, parent: seq<int>, visited: set<nat>, i: nat)
    requires Tree(adj, s, parent, visited) && i <= |parent|
    ensures Unvisited(parent[..i]) + |Below(visited, i)| == i
  {
    if i == 0 {
      assert Below(visited, 0) == {};
    } else {
      UnvisitedBelow(adj, s, parent, visited, i - 1);
      BelowStep(visited, i - 1);
      assert TreeAt(adj, s, parent, visited, i - 1);
      assert parent[..i][..i - 1] == parent[..i - 1];
    }
  }

  lemma {:induction false} UnvisitedCount(adj: Adjacency, s: nat, parent: seq<int>, d: nat)
    requires IsGraph(adj) && s < |adj| && Tree(adj, s, parent, Ball(adj, s, d))
    ensures Unvisited(parent) + |Ball(adj, s, d)| == |adj|
  {
    UnvisitedBelow(adj, s, parent, Ball(adj, s, d), |parent|);
    BallBound(adj, s, d);
    assert parent[..|parent|] == parent;
    assert Below(Ball(adj, s, d), |parent|) == Ball(adj, s, d);
  }

  lemma {:induction false} ChainSizes(a: set<nat>, b: set<nat>, c: set<nat>)
    requires a <= b <= c
    ensures |a| <= |c| && (c - b != {} ==> |a| < |c|)
  {
    SubsetSize(a, c);
    if c - b != {} {
      var x :| x in c - b;
      ProperSubsetSize(a, c, x);
    }
  }

  lemma {:induction false} BallGrows(adj: Adjacency, s: nat, d: nat, d': nat)
    requires d < d'
    ensures |Ball(adj, s, d)| <= |Ball(adj, s, d')|
    ensures Fringe(adj, s, d') != {} ==> |Ball(adj, s, d)| < |Ball(adj, s, d')|
  {
    BallMonotone(adj, s, d, d' - 1);
    BallMonotone(adj, s, d' - 1, d');
    ChainSizes(Ball(adj, s, d), Ball(adj, s, d' - 1), Ball(adj, s, d'));
  }

  /** Reaching a non-empty new level leaves fewer vertices unvisited. */
  lemma {:induction false} LevelVisits(adj: Adjacency, s: nat, d: nat, d': nat, before: seq<int>, after: seq<int>)
    requires IsGraph(adj) && s < |adj| && d < d'
    requires Tree(adj, s, before, Ball(adj, s, d)) && Tree(adj, s, after, Ball(adj, s, d'))
    ensures Unvisited(after) <= Unvisited(before)
    ensures |Fringe(adj, s, d')| > 0 ==> Unvisited(after) < Unvisited(before)
  {
    UnvisitedCount(adj, s, before, d);
    UnvisitedCount(adj, s, after, d');
    BallGrows(adj, s, d, d');
  }

  /** C++ integer division. */
  function TruncDiv(a: int, b: int): int
    requires b > 0
  {
    if a >= 0 then a / b else -((-a) / b)
  }

  lemma {:induction false} TruncDivNat(a: nat, b: nat)
    requires b > 0
    ensures TruncDiv(a, b) >= 0
  {
  }

  /** The search between two phases: everything within distance `d` is visited, the window holds level `d`, and the front
      bitmap has no bit outside the ball. */
  ghost predicate AtDepth(adj: Adjacency, s: nat, d: nat, parent: seq<int>, window: seq<int>, all: seq<int>, front: seq<bool>) {
    && IsGraph(adj) && IsSymmetric(adj) && s < |adj| && |front| == |adj|
    && Tree(adj, s, parent, Ball(adj, s, d))
    && Lists(window, Fringe(adj, s, d)) && QueuedOnce(adj, all, Ball(adj, s, d))
    && Within(front, Ball(adj, s, d))
  }

  ghost predicate WithinAt(bits: seq<bool>, s: set<nat>, v: nat)
    requires v < |bits|
  {
    bits[v] ==> v in s
  }

  ghost predicate Within(bits: seq<bool>, s: set<nat>) {
    forall v: nat {:trigger WithinAt(bits, s, v)} | v < |bits| :: WithinAt(bits, s, v)
  }

  lemma {:induction false} FrontWithin(adj: Adjacency, s: nat, d: nat, front: seq<bool>)
    requires FrontOk(adj, s, d, front)
    ensures Within(front, Ball(adj, s, d))
  {
    forall v: nat | v < |front| ensures WithinAt(front, Ball(adj, s, d), v) {
      assert FrontAt(adj, s, d, front, v);
    }
  }

  lemma {:induction false} StartAtZero(adj: Adjacency, s: nat, parent: seq<int>, front: seq<bool>)
    requires IsGraph(adj) && IsSymmetric(adj) && s < |adj| == |front| == |parent|
    requires (forall v | 0 <= v < |parent| :: parent[v] == if v == s then s else -1) && forall y | 0 <= y < |front| :: !front[y]
    ensures AtDepth(adj, s, 0, parent, [s], [s], front)
  {
    forall v | 0 <= v < |parent| ensures TreeAt(adj, s, parent, Ball(adj, s, 0), v) {}
    forall v: nat | v < |front| ensures WithinAt(front, Ball(adj, s, 0), v) {}
  }

  /** A tree over the ball at which the search stopped is a breadth-first tree of everything reachable. */
  lemma {:induction false} SearchDone(adj: Adjacency, s: nat, d: nat, parent: seq<int>)
    requires Tree(adj, s, parent, Ball(adj, s, d)) && Fringe(adj, s, d) == {}
    ensures IsBfsTree(adj, s, parent)
  {
    forall v | 0 <= v < |parent| ensures parent[v] != -1 <==> Reachable(adj, s, v) {
      assert TreeAt(adj, s, parent, Ball(adj, s, d), v);
      if Reachable(adj, s, v) {
        var k: nat :| v in Ball(adj, s, k);
        EmptyFringe(adj, s, d, k);
      }
    }
    forall v | 0 <= v < |parent| && parent[v] != -1 ensures ParentOk(adj, s, parent[v], v) {
      assert TreeAt(adj, s, parent, Ball(adj, s, d), v);
    }
  }

  /** Exactly the reachable vertices have a parent, the source is its own, and every other one's is a neighbour one level
      closer to the source. */
  ghost predicate IsBfsTree(adj: Adjacency, s: nat, parent: seq<int>) {
    && |parent| == |adj|
    && (forall v | 0 <= v < |parent| :: parent[v] != -1 <==> Reachable(adj, s, v))
    && (forall v | 0 <= v < |parent| && parent[v] != -1 :: ParentOk(adj, s, parent[v], v))
  }

  /** Between two bottom-up steps, after at least one: the front marks exactly level `d`. */
  ghost predicate Climbed(adj: Adjacency, s: nat, d: nat, parent: seq<int>, front: seq<bool>) {
    Tree(adj, s, parent, Ball(adj, s, d)) && FrontOk(adj, s, d, front) && Marks(front, Fringe(adj, s, d))
  }

  ghost predicate TwoBitmaps(adj: Adjacency, front: Bitmap, curr: Bitmap)
    reads front, curr
  {
    front.bits != curr.bits && front.bits.Length == curr.bits.Length == |adj|
  }

  /** One bottom-up step and the swap of the two bitmaps. */
  method Climb(adj: Adjacency, parent: array<int>, front: Bitmap, curr: Bitmap, ghost s: nat, ghost d: nat)
    returns (awakeCount: nat, ghost e: nat)
    requires parent.Length == |adj| && front != curr && TwoBitmaps(adj, front, curr)
    requires IsGraph(adj) && IsSymmetric(adj) && s < |adj|
    requires FrontOk(adj, s, d, front.bits[..]) && Tree(adj, s, parent[..], Ball(adj, s, d))
    modifies parent, front, curr, curr.bits
    ensures TwoBitmaps(adj, front, curr) && front.bits == old(curr.bits) && curr.bits == old(front.bits)
    ensures e == d + 1 && Climbed(adj, s, e, parent[..], front.bits[..]) && WidthsAre(adj, s, map[e := awakeCount])
    ensures Unvisited(parent[..]) <= old(Unvisited(parent[..]))
    ensures awakeCount > 0 ==> Unvisited(parent[..]) < old(Unvisited(parent[..]))
  {
    ghost var before := parent[..];
    awakeCount := BUStep(adj, parent, front, curr, s, d);
    e := d + 1;
    WidthsOne(adj, s, e, awakeCount);
    LevelVisits(adj, s, d, e, before, parent[..]);
    ghost var after := parent[..];
    front.Swap(curr);
    assert parent[..] == after;
  }

  /** Names the width of level `e`, so that facts about widths are used only where one is asked for. */
  ghost predicate WidthIs(adj: Adjacency, s: nat, e: nat, w: nat) {
    w == |Fringe(adj, s, e)|
  }

  predicate AsksFor(e: nat) {
    true
  }

  /** `width` gives the widths of some levels. */
  ghost predicate WidthsAre(adj: Adjacency, s: nat, width: map<nat, nat>) {
    forall e: nat {:trigger AsksFor(e)} | e in width && AsksFor(e) :: WidthIs(adj, s, e, width[e])
  }

  lemma {:induction false} WidthsOne(adj: Adjacency, s: nat, e: nat, w: nat)
    requires WidthIs(adj, s, e, w)
    ensures WidthsAre(adj, s, map[e := w])
  {
  }

  lemma {:induction false} WidthsJoin(adj: Adjacency, s: nat, width: map<nat, nat>, e: nat, w: nat)
    requires WidthsAre(adj, s, width) && WidthsAre(adj, s, map[e := w])
    ensures WidthsAre(adj, s, width[e := w])
  {
    forall x: nat | x in width[e := w] && AsksFor(x) ensures WidthIs(adj, s, x, width[e := w][x]) {
      assert x == e ==> map[e := w][x] == w;
    }
  }

  /** A bottom-up phase that began at level `d` with `size` vertices goes on after level `e`: the front has not shrunk or is
      still large. */
  predicate ClimbsOn(width: map<nat, nat>, d: nat, size: nat, large: int, e: nat) {
    && e > d && e in width && (e > d + 1 ==> e - 1 in width)
    && (width[e] >= (if e == d + 1 then size else width[e - 1]) || width[e] > large)
  }

  /** It went on after every level before `e`. */
  predicate GetsTo(width: map<nat, nat>, d: nat, size: nat, large: int, e: nat)
    decreases e
  {
    e in width && e > d && (e == d + 1 || (GetsTo(width, d, size, large, e - 1) && ClimbsOn(width, d, size, large, e - 1)))
  }

  /** The phase that begins at level `d` stops at level `e` and at none before. */
  ghost predicate StopsAt(adj: Adjacency, s: nat, d: nat, size: nat, large: int, e: nat, width: map<nat, nat>) {
    WidthsAre(adj, s, width) && GetsTo(width, d, size, large, e) && !ClimbsOn(width, d, size, large, e)
  }

  /** The loop of bottom-up steps has come to level `e`. */
  ghost predicate Climbing(adj: Adjacency, s: nat, d: nat, size: nat, large: int, e: nat, width: map<nat, nat>, before: nat,
                           awake: nat) {
    && WidthsAre(adj, s, width) && GetsTo(width, d, size, large, e) && (forall x | x in width :: x <= e)
    && awake == width[e] && (e > d + 1 ==> e - 1 in width) && before == if e == d + 1 then size else width[e - 1]
  }

  lemma {:induction false} GetsToMore(width: map<nat, nat>, d: nat, size: nat, large: int, e: nat, x: nat, w: nat)
    requires GetsTo(width, d, size, large, e) && x > e
    ensures GetsTo(width[x := w], d, size, large, e)
  {
    if e > d + 1 {
      GetsToMore(width, d, size, large, e - 1, x, w);
    }
  }

  lemma {:induction false} ClimbNext(adj: Adjacency, s: nat, d: nat, size: nat, large: int, e: nat, width: map<nat, nat>,
                                     before: nat, awake: nat, e': nat, more: nat)
    requires Climbing(adj, s, d, size, large, e, width, before, awake) && (awake >= before || awake > large)
    requires e' == e + 1 && WidthsAre(adj, s, map[e' := more])
    ensures Climbing(adj, s, d, size, large, e', width[e' := more], awake, more)
  {
    WidthsJoin(adj, s, width, e', more);
    GetsToMore(width, d, size, large, e, e', more);
  }

  /** At least one bottom-up step, and more while the front does not shrink or is still large. */
  method ClimbAll(adj: Adjacency, parent: array<int>, front: Bitmap, curr: Bitmap, queueSize: nat, large: nat, ghost s: nat, ghost d: nat)
    returns (ghost d': nat, awakeCount: nat, ghost widths: map<nat, nat>)
    requires queueSize > 0 && parent.Length == |adj| && front != curr && TwoBitmaps(adj, front, curr)
    requires IsGraph(adj) && IsSymmetric(adj) && s < |adj|
    requires FrontOk(adj, s, d, front.bits[..]) && Tree(adj, s, parent[..], Ball(adj, s, d))
    modifies parent, front, curr, front.bits, curr.bits
    ensures TwoBitmaps(adj, front, curr) && {front.bits, curr.bits} == old({front.bits, curr.bits})
    ensures d' > d && Climbed(adj, s, d', parent[..], front.bits[..])
    ensures StopsAt(adj, s, d, queueSize, large, d', widths)
  {
    var oldAwakeCount: nat := queueSize;
    awakeCount, d' := Climb(adj, parent, front, curr, s, d);
    widths := map[d' := awakeCount];
    while awakeCount >= oldAwakeCount || awakeCount > large
      invariant TwoBitmaps(adj, front, curr) && {front.bits, curr.bits} == old({front.bits, curr.bits})
      invariant d' > d && oldAwakeCount > 0 && Climbed(adj, s, d', parent[..], front.bits[..])
      invariant Climbing(adj, s, d, queueSize, large, d', widths, oldAwakeCount, awakeCount)
      decreases Unvisited(parent[..]), awakeCount
    {
      ghost var e, before := d', oldAwakeCount;
      oldAwakeCount := awakeCount;
      awakeCount, d' := Climb(adj, parent, front, curr, s, d');
      ClimbNext(adj, s, d, queueSize, large, e, widths, before, oldAwakeCount, d', awakeCount);
      widths := widths[d' := awakeCount];
    }
  }

  lemma {:induction false} FrontReady(adj: Adjacency, s: nat, d: nat, window: seq<int>, stale: seq<bool>, front: seq<bool>)
    requires IsGraph(adj) && s < |adj| == |stale| == |front| && Lists(window, Fringe(adj, s, d))
    requires Within(stale, Ball(adj, s, d))
    requires forall v: nat | v < |front| :: front[v] <==> stale[v] || v in window
    ensures FrontOk(adj, s, d, front)
  {
    forall y: nat | y < |front| ensures FrontAt(adj, s, d, front, y) {
      assert WithinAt(stale, Ball(adj, s, d), y);
    }
  }

  lemma {:induction false} WindowInRange(adj: Adjacency, s: nat, d: nat, window: seq<int>)
    requires IsGraph(adj) && s < |adj| && Lists(window, Fringe(adj, s, d))
    ensures forall k | 0 <= k < |window| :: 0 <= window[k] < |adj|
  {
    BallBound(adj, s, d);
  }

  /** An outer iteration either visits something new or leaves the queue empty. */
  lemma {:induction false} IterationVisits(adj: Adjacency, s: nat, d: nat, d': nat, before: seq<int>, after: seq<int>, window: seq<int>)
    requires IsGraph(adj) && s < |adj| && d < d' && Lists(window, Fringe(adj, s, d'))
    requires Tree(adj, s, before, Ball(adj, s, d)) && Tree(adj, s, after, Ball(adj, s, d'))
    ensures Unvisited(after) <= Unvisited(before)
    ensures window != [] ==> Unvisited(after) < Unvisited(before)
  {
    LevelVisits(adj, s, d, d', before, after);
    if window != [] {
      assert window[0] in Fringe(adj, s, d');
    }
  }

  /** The bottom-up phase, from the window of one level to the window of a later one. */
  method BottomUp(adj: Adjacency, parent: array<int>, queue: SlidingQueue, front: Bitmap, curr: Bitmap, beta: nat,
                  ghost s: nat, ghost d: nat)
    returns (ghost d': nat, ghost widths: map<nat, nat>)
    requires beta > 0 && queue.Valid() && queue.shared.Length == parent.Length == |adj| && parent != queue.shared
    requires front != curr && TwoBitmaps(adj, front, curr)
    requires queue.Pushed() == [] && queue.Window() != []
    requires AtDepth(adj, s, d, parent[..], queue.Window(), queue.All(), front.bits[..])
    modifies parent, queue, queue.shared, front, curr, front.bits, curr.bits
    ensures queue.Valid() && queue.Pushed() == [] && TwoBitmaps(adj, front, curr)
    ensures {front.bits, curr.bits} == old({front.bits, curr.bits})
    ensures AtDepth(adj, s, d', parent[..], queue.Window(), queue.All(), front.bits[..]) && d' > d
    ensures StopsAt(adj, s, d, old(queue.Size()), TruncDiv(|adj|, beta), d', widths)
    ensures Unvisited(parent[..]) <= old(Unvisited(parent[..]))
    ensures queue.Window() != [] ==> Unvisited(parent[..]) < old(Unvisited(parent[..]))
  {
    ghost var window, stale, before := queue.Window(), front.bits[..], parent[..];
    WindowInRange(adj, s, d, window);
    QueueToBitmap(queue, front);
    FrontReady(adj, s, d, window, stale, front.bits[..]);
    var awakeCount: nat := queue.Size();
    queue.SlideWindow();
    TruncDivNat(|adj|, beta);
    d', awakeCount, widths := ClimbAll(adj, parent, front, curr, awakeCount, TruncDiv(|adj|, beta), s, d);
    RequeueLevel(adj, queue, front, s, d, d');
    FrontWithin(adj, s, d', front.bits[..]);
    IterationVisits(adj, s, d, d', before, parent[..], queue.Window());
  }

  lemma {:induction false} LevelAbove(adj: Adjacency, s: nat, d: nat, d': nat, all: seq<int>)
    requires IsGraph(adj) && s < |adj| && d < d' && QueuedOnce(adj, all, Ball(adj, s, d))
    ensures QueuedOnce(adj, all, Ball(adj, s, d' - 1)) && Fringe(adj, s, d') !! Ball(adj, s, d' - 1)
    ensures Ball(adj, s, d' - 1) + Fringe(adj, s, d') == Ball(adj, s, d')
    ensures forall v | v in Fringe(adj, s, d') :: v < |adj|
  {
    BallMonotone(adj, s, d, d' - 1);
    BallMonotone(adj, s, d' - 1, d');
    BallBound(adj, s, d');
    QueuedMore(adj, all, Ball(adj, s, d), Ball(adj, s, d' - 1));
    SplitSets(Ball(adj, s, d' - 1), Ball(adj, s, d'));
  }

  lemma {:induction false} QueuedMore(adj: Adjacency, all: seq<int>, a: set<nat>, b: set<nat>)
    requires QueuedOnce(adj, all, a) && a <= b
    ensures QueuedOnce(adj, all, b)
  {
  }

  lemma {:induction false} SplitSets(a: set<nat>, b: set<nat>)
    requires a <= b
    ensures b - a !! a && a + (b - a) == b
  {
  }

  /** Back to the queue: none of the last level's vertices has been queued before. */
  method RequeueLevel(adj: Adjacency, queue: SlidingQueue, front: Bitmap, ghost s: nat, ghost d: nat, ghost d': nat)
    requires IsGraph(adj) && s < |adj| && d < d' && queue.Valid() && queue.Pushed() == []
    requires queue.shared.Length == front.bits.Length == |adj| && QueuedOnce(adj, queue.All(), Ball(adj, s, d))
    requires Marks(front.bits[..], Fringe(adj, s, d'))
    modifies queue, queue.shared
    ensures queue.Valid() && queue.Pushed() == []
    ensures Lists(queue.Window(), Fringe(adj, s, d')) && QueuedOnce(adj, queue.All(), Ball(adj, s, d'))
  {
    LevelAbove(adj, s, d, d', queue.All());
    BitmapToQueue(|adj|, front, queue, adj, Ball(adj, s, d' - 1), Fringe(adj, s, d'));
  }

  method TopDownLevel(adj: Adjacency, deg: seq<int>, parent: array<int>, queue: SlidingQueue, ghost front: seq<bool>,
                      ghost s: nat, ghost d: nat)
    returns (scoutCount: int, ghost d': nat)
    requires queue.Valid() && queue.shared.Length == parent.Length == |adj| == |deg| && parent != queue.shared
    requires queue.Pushed() == [] && AtDepth(adj, s, d, parent[..], queue.Window(), queue.All(), front)
    modifies parent, queue, queue.shared
    ensures queue.Valid() && queue.Pushed() == []
    ensures d' == d + 1 && AtDepth(adj, s, d', parent[..], queue.Window(), queue.All(), front)
    ensures scoutCount == DegreesOf(deg, queue.Window())
  {
    BeginExpanding(adj, s, d, parent[..], queue.Window(), queue.All());
    scoutCount := TDStep(adj, deg, parent, queue, s, d);
    queue.SlideWindow();
    WithinNext(adj, s, d, front);
    d' := d + 1;
  }

  /** The top-down phase, from the window of one level to the window of the next. */
  method TopDown(adj: Adjacency, deg: seq<int>, parent: array<int>, queue: SlidingQueue, ghost front: seq<bool>,
                 ghost s: nat, ghost d: nat)
    returns (scoutCount: int, ghost d': nat)
    requires queue.Valid() && queue.shared.Length == parent.Length == |adj| == |deg| && parent != queue.shared
    requires queue.Pushed() == [] && AtDepth(adj, s, d, parent[..], queue.Window(), queue.All(), front)
    modifies parent, queue, queue.shared
    ensures queue.Valid() && queue.Pushed() == []
    ensures d' == d + 1 && AtDepth(adj, s, d', parent[..], queue.Window(), queue.All(), front)
    ensures scoutCount == DegreesOf(deg, queue.Window())
    ensures Unvisited(parent[..]) <= old(Unvisited(parent[..]))
    ensures queue.Window() != [] ==> Unvisited(parent[..]) < old(Unvisited(parent[..]))
  {
    ghost var before := parent[..];
    scoutCount, d' := TopDownLevel(adj, deg, parent, queue, front, s, d);
    IterationVisits(adj, s, d, d', before, parent[..], queue.Window());
  }

  lemma {:induction false} BeginExpanding(adj: Adjacency, s: nat, d: nat, parent: seq<int>, window: seq<int>, all: seq<int>)
    requires IsGraph(adj) && s < |adj| && Tree(adj, s, parent, Ball(adj, s, d))
    requires Lists(window, Fringe(adj, s, d)) && QueuedOnce(adj, all, Ball(adj, s, d))
    ensures Expanding(adj, s, d, parent, window, [], all)
  {
    assert Visited(adj, s, d, []) == Ball(adj, s, d);
  }

  lemma {:induction false} WithinNext(adj: Adjacency, s: nat, d: nat, front: seq<bool>)
    requires Within(front, Ball(adj, s, d))
    ensures Within(front, Ball(adj, s, d + 1))
  {
    BallMonotone(adj, s, d, d + 1);
    var next := Ball(adj, s, d + 1);
    forall v: nat | v < |front| ensures WithinAt(front, next, v) {
      assert WithinAt(front, Ball(adj, s, d), v);
    }
  }

  lemma {:induction false} EmptyWindow(adj: Adjacency, s: nat, d: nat, window: seq<int>)
    requires Lists(window, Fringe(adj, s, d)) && window == []
    ensures Fringe(adj, s, d) == {}
  {
  }

  method InitParent(vertexNum: nat, src: nat) returns (parent: array<int>)
    requires src < vertexNum
    ensures fresh(parent) && parent.Length == vertexNum
    ensures forall v | 0 <= v < vertexNum :: parent[v] == if v == src then src else -1
  {
    parent := new int[vertexNum](_ => -1);
    parent[src] := src;
  }

  method InitQueue(size: nat, src: nat) returns (queue: SlidingQueue)
    requires size > 0
    ensures fresh(queue) && fresh(queue.shared) && queue.Valid() && queue.shared.Length == size
    ensures queue.Pushed() == [] && queue.Window() == [src] && queue.All() == [src]
  {
    queue := new SlidingQueue(size);
    queue.PushBack(src);
    queue.SlideWindow();
    assert queue.All() == [src];
  }

  method InitBitmap(size: nat) returns (bm: Bitmap)
    ensures fresh(bm) && fresh(bm.bits) && bm.bits.Length == size && forall v | 0 <= v < size :: !bm.bits[v]
  {
    bm := new Bitmap(size);
    bm.Reset();
  }

  /** The search at depth `d`, between two iterations of its loop. */
  ghost predicate Searching(adj: Adjacency, s: nat, d: nat, parent: array<int>, queue: SlidingQueue, front: Bitmap, curr: Bitmap)
    reads parent, queue, queue.shared, front, curr, front.bits
  {
    && queue.Valid() && queue.shared.Length == parent.Length == |adj| && parent != queue.shared && front != curr
    && queue.Pushed() == [] && TwoBitmaps(adj, front, curr)
    && AtDepth(adj, s, d, parent[..], queue.Window(), queue.All(), front.bits[..])
  }

  method Setup(adj: Adjacency, src: nat) returns (parent: array<int>, queue: SlidingQueue, curr: Bitmap, front: Bitmap)
    requires IsGraph(adj) && IsSymmetric(adj) && src < |adj|
    ensures fresh(parent) && fresh(queue) && fresh(queue.shared) && fresh(curr) && fresh(front)
    ensures fresh(curr.bits) && fresh(front.bits) && Searching(adj, src, 0, parent, queue, front, curr)
  {
    parent := InitParent(|adj|, src);
    queue := InitQueue(|adj|, src);
    curr := InitBitmap(|adj|);
    front := InitBitmap(|adj|);
    StartAtZero(adj, src, parent[..], front.bits[..]);
  }

  /** What an iteration in either direction does to the level, the unexplored edges and the scout count. */
  ghost predicate IterationOk(adj: Adjacency, deg: seq<int>, s: nat, beta: nat, bottomUp: bool, d: nat, size: nat, edges: int,
                              scout: int, d': nat, window': seq<int>, edges': int, scout': int, widths: map<nat, nat>)
    requires beta > 0
  {
    if bottomUp then StopsAt(adj, s, d, size, TruncDiv(|adj|, beta), d', widths) && edges' == edges && scout' == 1
    else d' == d + 1 && edges' == edges - scout && scout' == DegreesOf(deg, window')
  }

  /** One iteration of the search, in the direction the heuristic picks. */
  method Iterate(adj: Adjacency, deg: seq<int>, parent: array<int>, queue: SlidingQueue, front: Bitmap, curr: Bitmap,
                 bottomUp: bool, edgesToCheck: int, scoutCount: int, beta: nat, ghost s: nat, ghost d: nat)
    returns (edgesToCheck': int, scoutCount': int, ghost d': nat, ghost widths: map<nat, nat>)
    requires |deg| == |adj| && beta > 0
    requires Searching(adj, s, d, parent, queue, front, curr) && !queue.Empty()
    modifies parent, queue, queue.shared, front, curr, front.bits, curr.bits
    ensures Searching(adj, s, d', parent, queue, front, curr) && {front.bits, curr.bits} == old({front.bits, curr.bits})
    ensures IterationOk(adj, deg, s, beta, bottomUp, d, old(queue.Size()), edgesToCheck, scoutCount,
                        d', queue.Window(), edgesToCheck', scoutCount', widths)
    ensures Unvisited(parent[..]) <= old(Unvisited(parent[..]))
    ensures queue.Window() != [] ==> Unvisited(parent[..]) < old(Unvisited(parent[..]))
  {
    edgesToCheck' := edgesToCheck;
    if bottomUp {
      d', widths := BottomUp(adj, parent, queue, front, curr, beta, s, d);
      scoutCount' := 1;
    } else {
      edgesToCheck' := edgesToCheck - scoutCount;
      scoutCount', d' := TopDown(adj, deg, parent, queue, front.bits[..], s, d);
      widths := map[];
    }
  }

  /** Asks the heuristic, then takes one iteration. */
  method Turn(adj: Adjacency, deg: seq<int>, parent: array<int>, queue: SlidingQueue, front: Bitmap, curr: Bitmap,
              edgesToCheck: int, scoutCount: int, alpha: nat, beta: nat, ghost s: nat, ghost d: nat)
    returns (edgesToCheck': int, scoutCount': int, ghost d': nat, ghost widths: map<nat, nat>)
    requires |deg| == |adj| && alpha > 0 && beta > 0
    requires Searching(adj, s, d, parent, queue, front, curr) && !queue.Empty()
    modifies parent, queue, queue.shared, front, curr, front.bits, curr.bits
    ensures Searching(adj, s, d', parent, queue, front, curr) && {front.bits, curr.bits} == old({front.bits, curr.bits})
    ensures IterationOk(adj, deg, s, beta, scoutCount > TruncDiv(edgesToCheck, alpha), d, old(queue.Size()), edgesToCheck,
                        scoutCount, d', queue.Window(), edgesToCheck', scoutCount', widths)
    ensures Unvisited(parent[..]) <= old(Unvisited(parent[..]))
    ensures queue.Window() != [] ==> Unvisited(parent[..]) < old(Unvisited(parent[..]))
  {
    var bottomUp := scoutCount > TruncDiv(edgesToCheck, alpha);
    edgesToCheck', scoutCount', d', widths := Iterate(adj, deg, parent, queue, front, curr, bottomUp, edgesToCheck, scoutCount, beta, s, d);
  }

  /** For every symmetric graph, all positive parameters and all degree estimates: the search ends, exactly the reachable
      vertices have a parent, and each parent is a neighbour one level closer to the source. */
  method DOBFS(adj: Adjacency, deg: seq<int>, src: nat, edgeNum: int, srcOutDegree: int, alpha: nat, beta: nat)
    returns (parent: array<int>)
    requires IsGraph(adj) && IsSymmetric(adj) && src < |adj| == |deg| && alpha > 0 && beta > 0
    ensures fresh(parent) && IsBfsTree(adj, src, parent[..])
  {
    var queue, curr, front;
    parent, queue, curr, front := Setup(adj, src);
    var scoutCount := if srcOutDegree == -1 then deg[src] else srcOutDegree;
    Search(adj, deg, parent, queue, front, curr, edgeNum, scoutCount, alpha, beta, src);
  }

  /** The search loop, from the source on. */
  method Search(adj: Adjacency, deg: seq<int>, parent: array<int>, queue: SlidingQueue, front: Bitmap, curr: Bitmap,
                edgeNum: int, srcOutDegree: int, alpha: nat, beta: nat, ghost s: nat)
    requires |deg| == |adj| && alpha > 0 && beta > 0 && Searching(adj, s, 0, parent, queue, front, curr)
    modifies parent, queue, queue.shared, front, curr, front.bits, curr.bits
    ensures IsBfsTree(adj, s, parent[..])
  {
    var edgesToCheck, scoutCount := edgeNum, srcOutDegree;
    ghost var d: nat := 0;
    while !queue.Empty()
      invariant Searching(adj, s, d, parent, queue, front, curr) && {front.bits, curr.bits} == old({front.bits, curr.bits})
      decreases Unvisited(parent[..]), if queue.Window() == [] then 0 else 1
    {
      ghost var widths;
      edgesToCheck, scoutCount, d, widths :=
        Turn(adj, deg, parent, queue, front, curr, edgesToCheck, scoutCount, alpha, beta, s, d);
    }
    EmptyWindow(adj, s, d, queue.Window());
    SearchDone(adj, s, d, parent[..]);
  }
}
