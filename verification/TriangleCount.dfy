/** Ordered triangle counting: for each vertex and each smaller neighbour, merge the two sorted neighbour lists. */
module TriangleCount {
  import opened FiniteSets

  type Adjacency = seq<seq<nat>>

  predicate Sorted(xs: seq<nat>) {
    forall i, j | 0 <= i < j < |xs| :: xs[i] < xs[j]
  }

  /** Neighbour lists are ascending without repetition and name vertices. */
  predicate IsGraph(adj: Adjacency) {
    forall u | 0 <= u < |adj| :: Sorted(adj[u]) && forall k | 0 <= k < |adj[u]| :: adj[u][k] < |adj|
  }

  // ----- What is counted -----

  /** Common neighbours of `u` and `v` up to `v`, among the first `k` neighbours of `u`. */
  function Common(nu: seq<nat>, nv: seq<nat>, v: nat, k: nat): set<nat>
    requires k <= |nu|
  {
    set w | w in nu[..k] && w <= v && w in nv
  }

  function Inner(adj: Adjacency, u: nat, v: nat): set<nat>
    requires u < |adj| && v < |adj|
  {
    Common(adj[u], adj[v], v, |adj[u]|)
  }

  /** The pairs counted for `u` whose larger element is among its first `a` neighbours. */
  ghost function Pairs(adj: Adjacency, u: nat, a: nat): set<(nat, nat)>
    requires IsGraph(adj) && u < |adj| && a <= |adj[u]|
  {
    set v, w | v in adj[u][..a] && v <= u && v < |adj| && w in Inner(adj, u, v) :: (v, w)
  }

  /** The triples counted for the vertices below `n`: `w <= v <= u`, all edges present. */
  ghost function Triples(adj: Adjacency, n: nat): set<(nat, nat, nat)>
    requires IsGraph(adj) && n <= |adj|
  {
    set u, v, w | 0 <= u < n && v in adj[u] && v <= u && v < |adj| && w in Inner(adj, u, v) :: (u, v, w)
  }

  // ----- Sizes -----

  function Paired(v: nat, s: set<nat>): set<(nat, nat)> {
    set w | w in s :: (v, w)
  }

  lemma {:induction false} PairedSize(v: nat, s: set<nat>)
    ensures |Paired(v, s)| == |s|
  {
    if s != {} {
      var x :| x in s;
      PairedSize(v, s - {x});
      assert Paired(v, s) == Paired(v, s - {x}) + {(v, x)};
      assert (v, x) !in Paired(v, s - {x});
    } else {
      assert Paired(v, s) == {};
    }
  }

  function Tripled(u: nat, s: set<(nat, nat)>): set<(nat, nat, nat)> {
    set p | p in s :: (u, p.0, p.1)
  }

  lemma {:induction false} TripledSize(u: nat, s: set<(nat, nat)>)
    ensures |Tripled(u, s)| == |s|
  {
    if s != {} {
      var x :| x in s;
      TripledSize(u, s - {x});
      assert Tripled(u, s) == Tripled(u, s - {x}) + {(u, x.0, x.1)};
      assert (u, x.0, x.1) !in Tripled(u, s - {x});
    } else {
      assert Tripled(u, s) == {};
    }
  }

  lemma {:induction false} CommonStep(nu: seq<nat>, nv: seq<nat>, v: nat, k: nat)
    requires Sorted(nu) && k < |nu|
    ensures Common(nu, nv, v, k + 1) == Common(nu, nv, v, k) + (if nu[k] <= v && nu[k] in nv then {nu[k]} else {})
    ensures |Common(nu, nv, v, k + 1)| == |Common(nu, nv, v, k)| + (if nu[k] <= v && nu[k] in nv then 1 else 0)
  {
    assert nu[..k + 1] == nu[..k] + [nu[k]];
    assert nu[k] !in nu[..k];
    assert Common(nu, nv, v, k + 1) == Common(nu, nv, v, k) + (if nu[k] <= v && nu[k] in nv then {nu[k]} else {});
  }

  /** Past the first neighbour above `v` nothing more is common. */
  lemma {:induction false} CommonRest(nu: seq<nat>, nv: seq<nat>, v: nat, k: nat)
    requires Sorted(nu) && k < |nu| && nu[k] > v
    ensures Common(nu, nv, v, k) == Common(nu, nv, v, |nu|)
  {
    forall w | w in Common(nu, nv, v, |nu|) ensures w in Common(nu, nv, v, k) {
      var i :| 0 <= i < |nu| && nu[i] == w;
      assert i < k;
      assert nu[..k][i] == w;
    }
    forall w | w in Common(nu, nv, v, k) ensures w in Common(nu, nv, v, |nu|) {
      var i :| 0 <= i < |nu[..k]| && nu[..k][i] == w;
      assert nu[..|nu|][i] == w;
    }
  }

  lemma {:induction false} PairsStep(adj: Adjacency, u: nat, a: nat)
    requires IsGraph(adj) && u < |adj| && a < |adj[u]|
    ensures |Pairs(adj, u, a + 1)|
            == |Pairs(adj, u, a)| + (if adj[u][a] <= u then |Inner(adj, u, adj[u][a])| else 0)
  {
    var v := adj[u][a];
    assert adj[u][..a + 1] == adj[u][..a] + [v];
    assert v !in adj[u][..a];
    var added := Paired(v, Inner(adj, u, v));
    PairedSize(v, Inner(adj, u, v));
    if v <= u {
      assert Pairs(adj, u, a + 1) == Pairs(adj, u, a) + added;
      assert Pairs(adj, u, a) !! added;
    } else {
      assert Pairs(adj, u, a + 1) == Pairs(adj, u, a);
    }
  }

  lemma {:induction false} PairsRest(adj: Adjacency, u: nat, a: nat)
    requires IsGraph(adj) && u < |adj| && a < |adj[u]| && adj[u][a] > u
    ensures Pairs(adj, u, a) == Pairs(adj, u, |adj[u]|)
  {
    forall p | p in Pairs(adj, u, |adj[u]|) ensures p in Pairs(adj, u, a) {
      var i :| 0 <= i < |adj[u]| && adj[u][i] == p.0;
      assert i < a;
      assert adj[u][..a][i] == p.0;
    }
    forall p | p in Pairs(adj, u, a) ensures p in Pairs(adj, u, |adj[u]|) {
      var i :| 0 <= i < |adj[u][..a]| && adj[u][..a][i] == p.0;
      assert adj[u][..|adj[u]|][i] == p.0;
    }
  }

  lemma {:induction false} TriplesStep(adj: Adjacency, n: nat)
    requires IsGraph(adj) && n < |adj|
    ensures |Triples(adj, n + 1)| == |Triples(adj, n)| + |Pairs(adj, n, |adj[n]|)|
  {
    var added := Tripled(n, Pairs(adj, n, |adj[n]|));
    TripledSize(n, Pairs(adj, n, |adj[n]|));
    assert adj[n][..|adj[n]|] == adj[n];
    forall t | t in Triples(adj, n + 1) ensures t in Triples(adj, n) + added {
      if t.0 == n {
        assert (t.1, t.2) in Pairs(adj, n, |adj[n]|);
      }
    }
    assert Triples(adj, n + 1) == Triples(adj, n) + added;
    assert Triples(adj, n) !! added;
  }

  // ----- The count -----

  /** Moves the cursor past everything below `w`. */
  method SkipBelow(nv: seq<nat>, from: nat, w: nat) returns (i: nat)
    requires Sorted(nv) && from <= |nv| && forall j | 0 <= j < from :: nv[j] < w
    ensures i <= |nv| && forall j | 0 <= j < i :: nv[j] < w
    ensures i < |nv| && nv[i] == w <==> w in nv
  {
    i := from;
    while i < |nv| && nv[i] < w
      invariant i <= |nv| && forall j | 0 <= j < i :: nv[j] < w
    {
      i := i + 1;
    }
  }

  /** Merges the two lists with a cursor that only moves forward. */
  method CountPair(adj: Adjacency, u: nat, v: nat) returns (c: nat)
    requires IsGraph(adj) && u < |adj| && v < |adj|
    ensures c == |Inner(adj, u, v)|
  {
    c := Merge(adj[u], adj[v], v);
  }

  method Merge(nu: seq<nat>, nv: seq<nat>, v: nat) returns (c: nat)
    requires Sorted(nu) && Sorted(nv)
    ensures c == |Common(nu, nv, v, |nu|)|
  {
    c := 0;
    var i: nat := 0;
    assert Common(nu, nv, v, 0) == {};
    for k := 0 to |nu|
      invariant i <= |nv| && c == |Common(nu, nv, v, k)|
      invariant forall j | 0 <= j < i && k < |nu| :: nv[j] < nu[k]
    {
      var w := nu[k];
      if w > v {
        CommonRest(nu, nv, v, k);
        return;
      }
      i := SkipBelow(nv, i, w);
      CommonStep(nu, nv, v, k);
      if i < |nv| && w == nv[i] {
        c := c + 1;
      }
    }
  }

  method CountVertex(adj: Adjacency, u: nat) returns (c: nat)
    requires IsGraph(adj) && u < |adj|
    ensures c == |Pairs(adj, u, |adj[u]|)|
  {
    c := 0;
    assert Pairs(adj, u, 0) == {};
    for a := 0 to |adj[u]|
      invariant c == |Pairs(adj, u, a)|
    {
      var v := adj[u][a];
      if v > u {
        PairsRest(adj, u, a);
        return;
      }
      PairsStep(adj, u, a);
      var x := CountPair(adj, u, v);
      c := c + x;
    }
  }

  /** The total is exactly the number of triples `w <= v <= u` with all three edges present. */
  method OrderedCount(adj: Adjacency) returns (total: nat)
    requires IsGraph(adj)
    ensures total == |Triples(adj, |adj|)|
  {
    total := 0;
    assert Triples(adj, 0) == {};
    for u := 0 to |adj|
      invariant total == |Triples(adj, u)|
    {
      var x := CountVertex(adj, u);
      TriplesStep(adj, u);
      total := total + x;
    }
  }

  // ----- Triangles -----

  /** The triples `w < v < u`. */
  ghost function StrictTriples(adj: Adjacency): set<(nat, nat, nat)>
    requires IsGraph(adj)
  {
    set t | t in Triples(adj, |adj|) && t.2 < t.1 < t.0
  }

  predicate LoopFree(adj: Adjacency) {
    forall u | 0 <= u < |adj| :: u !in adj[u]
  }

  predicate Symmetric(adj: Adjacency) {
    forall u, v | 0 <= u < |adj| && 0 <= v < |adj| && v in adj[u] :: u in adj[v]
  }

  lemma {:induction false} TripleFacts(adj: Adjacency, t: (nat, nat, nat))
    requires IsGraph(adj)
    ensures t in Triples(adj, |adj|) <==>
            t.0 < |adj| && t.1 < |adj| && t.2 <= t.1 <= t.0 && t.1 in adj[t.0] && t.2 in adj[t.0] && t.2 in adj[t.1]
  {
    if t.0 < |adj| {
      assert adj[t.0][..|adj[t.0]|] == adj[t.0];
    }
    if t.0 < |adj| && t.1 < |adj| && t.2 <= t.1 <= t.0 && t.1 in adj[t.0] && t.2 in adj[t.0] && t.2 in adj[t.1] {
      assert t.2 in Inner(adj, t.0, t.1);
      assert (t.0, t.1, t.2) in Triples(adj, |adj|);
    }
  }

  /** The count is the number of strictly ordered triples exactly if no vertex is its own neighbour. */
  lemma {:induction false} StrictIffLoopFree(adj: Adjacency)
    requires IsGraph(adj)
    ensures |Triples(adj, |adj|)| == |StrictTriples(adj)| <==> LoopFree(adj)
  {
    var all, strict := Triples(adj, |adj|), StrictTriples(adj);
    if LoopFree(adj) {
      forall t | t in all ensures t in strict {
        TripleFacts(adj, t);
      }
      assert all == strict;
    } else {
      var u :| 0 <= u < |adj| && u in adj[u];
      TripleFacts(adj, (u, u, u));
      ProperSubsetSize(strict, all, (u, u, u));
    }
  }

  /** Three different vertices, each pair adjacent. */
  predicate IsTriangle(adj: Adjacency, a: nat, b: nat, c: nat) {
    && a < |adj| && b < |adj| && c < |adj| && a != b && b != c && a != c
    && b in adj[a] && c in adj[a] && c in adj[b]
  }

  ghost function Triangles(adj: Adjacency): set<set<nat>> {
    set a: nat, b: nat, c: nat | a < |adj| && b < |adj| && c < |adj| && IsTriangle(adj, a, b, c) :: {a, b, c}
  }

  /** The vertex sets of a set of triples. */
  function Unordered(s: set<(nat, nat, nat)>): set<set<nat>> {
    set t | t in s :: {t.0, t.1, t.2}
  }

  lemma {:induction false} UnorderedSize(s: set<(nat, nat, nat)>)
    requires forall t | t in s :: t.2 < t.1 < t.0
    ensures |Unordered(s)| == |s|
  {
    if s == {} {
      assert Unordered(s) == {};
    } else {
      var x :| x in s;
      var smaller := s - {x};
      UnorderedSize(smaller);
      assert Unordered(s) == Unordered(smaller) + {{x.0, x.1, x.2}};
      forall t | t in smaller ensures {t.0, t.1, t.2} != {x.0, x.1, x.2} {
        SameElements(t, x);
      }
    }
  }

  /** Descending triples with the same elements are equal. */
  lemma {:induction false} SameElements(t: (nat, nat, nat), x: (nat, nat, nat))
    requires t.2 < t.1 < t.0 && x.2 < x.1 < x.0
    ensures {t.0, t.1, t.2} == {x.0, x.1, x.2} ==> t == x
  {
    if {t.0, t.1, t.2} == {x.0, x.1, x.2} {
      assert t.0 in {x.0, x.1, x.2} && t.1 in {x.0, x.1, x.2} && t.2 in {x.0, x.1, x.2};
      assert x.0 in {t.0, t.1, t.2} && x.1 in {t.0, t.1, t.2} && x.2 in {t.0, t.1, t.2};
    }
  }

  /** On a symmetric graph without loops the count is the number of triangles. */
  lemma {:induction false} CountsTriangles(adj: Adjacency)
    requires IsGraph(adj) && Symmetric(adj) && LoopFree(adj)
    ensures |Triples(adj, |adj|)| == |Triangles(adj)|
  {
    StrictIffLoopFree(adj);
    UnorderedSize(StrictTriples(adj));
    forall x | x in Unordered(StrictTriples(adj)) ensures x in Triangles(adj) {
      var t :| t in StrictTriples(adj) && x == {t.0, t.1, t.2};
      IsATriangle(adj, t);
    }
    forall x | x in Triangles(adj) ensures x in Unordered(StrictTriples(adj)) {
      var a: nat, b: nat, c: nat :| a < |adj| && b < |adj| && c < |adj| && IsTriangle(adj, a, b, c) && x == {a, b, c};
      OrderTriangle(adj, a, b, c);
    }
    assert Unordered(StrictTriples(adj)) == Triangles(adj);
  }

  lemma {:induction false} IsATriangle(adj: Adjacency, t: (nat, nat, nat))
    requires IsGraph(adj) && t in StrictTriples(adj)
    ensures {t.0, t.1, t.2} in Triangles(adj)
  {
    TripleFacts(adj, t);
    assert IsTriangle(adj, t.0, t.1, t.2);
  }

  lemma {:induction false} OrderTriangle(adj: Adjacency, a: nat, b: nat, c: nat)
    requires IsGraph(adj) && Symmetric(adj) && IsTriangle(adj, a, b, c)
    ensures {a, b, c} in Unordered(StrictTriples(adj))
  {
    var hi := if a > b && a > c then a else if b > c then b else c;
    var lo := if a < b && a < c then a else if b < c then b else c;
    var mid := if a != hi && a != lo then a else if b != hi && b != lo then b else c;
    assert lo < mid < hi && {hi, mid, lo} == {a, b, c};
    TripleFacts(adj, (hi, mid, lo));
    assert (hi, mid, lo) in StrictTriples(adj);
  }
}
