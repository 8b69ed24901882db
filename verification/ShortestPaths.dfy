/** Walks in a weighted graph, their lengths, and why a table of tentative distances can only improve finitely often.

    A graph is given by its adjacency: for each vertex the neighbours a read returns, with their weights. */
module ShortestPaths {
  import opened FiniteSets

  /** One step of a walk along an edge to `to`. */
  datatype Step = Step(to: nat, w: real)

  type Graph = seq<seq<Step>>
  type Walk = seq<Step>

  predicate IsGraph(g: Graph) {
    forall u, i | 0 <= u < |g| && 0 <= i < |g[u]| :: g[u][i].to < |g| && g[u][i].w >= 0.0
  }

  /** The vertex a walk from `s` ends at. */
  function End(s: nat, w: Walk): nat {
    if w == [] then s else w[|w| - 1].to
  }

  predicate IsWalk(g: Graph, s: nat, w: Walk) {
    if w == [] then s < |g|
    else
      var init := w[..|w| - 1];
      IsWalk(g, s, init) && End(s, init) < |g| && w[|w| - 1] in g[End(s, init)]
  }

  function Length(w: Walk): real {
    if w == [] then 0.0 else Length(w[..|w| - 1]) + w[|w| - 1].w
  }

  function Visits(s: nat, w: Walk): set<nat> {
    if w == [] then {s} else Visits(s, w[..|w| - 1]) + {w[|w| - 1].to}
  }

  predicate IsSimple(s: nat, w: Walk) {
    w == [] || (IsSimple(s, w[..|w| - 1]) && w[|w| - 1].to !in Visits(s, w[..|w| - 1]))
  }

  lemma {:induction false} WalkFacts(g: Graph, s: nat, w: Walk)
    requires IsGraph(g) && IsWalk(g, s, w)
    ensures End(s, w) < |g| && Length(w) >= 0.0 && forall v | v in Visits(s, w) :: v < |g|
  {
    if w != [] {
      var init, e := w[..|w| - 1], w[|w| - 1];
      WalkFacts(g, s, init);
      var i :| 0 <= i < |g[End(s, init)]| && g[End(s, init)][i] == e;
    }
  }

  lemma {:induction false} SimpleSize(s: nat, w: Walk)
    requires IsSimple(s, w)
    ensures |Visits(s, w)| == |w| + 1
  {
    if w != [] {
      SimpleSize(s, w[..|w| - 1]);
    }
  }

  lemma {:induction false} SimpleIsShort(g: Graph, s: nat, w: Walk)
    requires IsGraph(g) && IsWalk(g, s, w) && IsSimple(s, w)
    ensures |w| < |g|
  {
    WalkFacts(g, s, w);
    SimpleSize(s, w);
    SubsetSize(Visits(s, w), Upto(|g|));
  }

  lemma {:induction false} ExtendWalk(g: Graph, s: nat, w: Walk, e: Step)
    requires IsWalk(g, s, w) && End(s, w) < |g| && e in g[End(s, w)]
    ensures IsWalk(g, s, w + [e]) && End(s, w + [e]) == e.to && Length(w + [e]) == Length(w) + e.w
    ensures Visits(s, w + [e]) == Visits(s, w) + {e.to}
    ensures IsSimple(s, w) && e.to !in Visits(s, w) ==> IsSimple(s, w + [e])
  {
    assert (w + [e])[..|w|] == w;
  }

  // ----- Tentative distances -----

  /** Along the walk every vertex is known to be no farther than the walk says. */
  predicate Bounded(d: seq<real>, s: nat, w: Walk) {
    && End(s, w) < |d| && d[End(s, w)] <= Length(w)
    && (w != [] ==> Bounded(d, s, w[..|w| - 1]))
  }

  lemma {:induction false} BoundedVisits(g: Graph, d: seq<real>, s: nat, w: Walk, v: nat)
    requires IsGraph(g) && IsWalk(g, s, w) && Bounded(d, s, w) && v in Visits(s, w)
    ensures v < |d| && d[v] <= Length(w)
  {
    if w != [] {
      var init, e := w[..|w| - 1], w[|w| - 1];
      var i :| 0 <= i < |g[End(s, init)]| && g[End(s, init)][i] == e;
      if v in Visits(s, init) {
        BoundedVisits(g, d, s, init, v);
      }
    }
  }

  lemma {:induction false} BoundedLower(d: seq<real>, d': seq<real>, s: nat, w: Walk)
    requires Bounded(d, s, w) && |d'| == |d| && forall v | 0 <= v < |d| :: d'[v] <= d[v]
    ensures Bounded(d', s, w)
  {
    if w != [] {
      BoundedLower(d, d', s, w[..|w| - 1]);
    }
  }

  /** The walk that gave a vertex its tentative distance. */
  predicate Witness(g: Graph, inf: real, d: seq<real>, s: nat, v: nat, w: Walk)
    requires v < |d|
  {
    d[v] < inf ==> IsWalk(g, s, w) && End(s, w) == v && Length(w) == d[v] && IsSimple(s, w) && Bounded(d, s, w)
  }

  ghost predicate Tentative(g: Graph, inf: real, d: seq<real>, s: nat, via: seq<Walk>) {
    && |d| == |via| == |g| && s < |g| && d[s] == 0.0 < inf
    && (forall v | 0 <= v < |d| :: 0.0 <= d[v] <= inf)
    && (forall v {:trigger Witness(g, inf, d, s, v, via[v])} | 0 <= v < |d| :: Witness(g, inf, d, s, v, via[v]))
  }

  /** Improving `v` over an edge from `u`: the new distance is again the length of a simple walk. */
  lemma {:induction false} Improve(g: Graph, inf: real, d: seq<real>, s: nat, via: seq<Walk>, u: nat, e: Step)
    requires IsGraph(g) && Tentative(g, inf, d, s, via) && u < |g| && e in g[u] && d[u] + e.w < d[e.to]
    ensures e.w >= 0.0 && e.to < |g| && d[u] < inf
    ensures Tentative(g, inf, d[e.to := d[u] + e.w], s, via[e.to := via[u] + [e]])
    ensures IsWalk(g, s, via[u] + [e]) && IsSimple(s, via[u] + [e]) && Length(via[u] + [e]) == d[u] + e.w
  {
    var i :| 0 <= i < |g[u]| && g[u][i] == e;
    var d', via' := d[e.to := d[u] + e.w], via[e.to := via[u] + [e]];
    assert Witness(g, inf, d, s, u, via[u]);
    if e.to in Visits(s, via[u]) {
      BoundedVisits(g, d, s, via[u], e.to);
    }
    ExtendWalk(g, s, via[u], e);
    BoundedLower(d, d', s, via[u]);
    assert (via[u] + [e])[..|via[u]|] == via[u];
    assert e.to != s;
    forall v | 0 <= v < |d'| ensures Witness(g, inf, d', s, v, via'[v]) {
      assert Witness(g, inf, d, s, v, via[v]);
      if v != e.to && d[v] < inf {
        BoundedLower(d, d', s, via[v]);
      }
    }
  }

  // ----- Termination: tentative distances are lengths of simple walks, of which there are finitely many -----

  function Edges(g: Graph): set<Step> {
    set u, i | 0 <= u < |g| && 0 <= i < |g[u]| :: g[u][i]
  }

  /** All step sequences of at most `k` steps. */
  function Sequences(edges: set<Step>, k: nat): set<Walk> {
    if k == 0 then {[]}
    else Sequences(edges, k - 1) + set w, e | w in Sequences(edges, k - 1) && e in edges :: w + [e]
  }

  function Lengths(g: Graph): set<real> {
    set w | w in Sequences(Edges(g), |g|) :: Length(w)
  }

  lemma {:induction false} WalkInSequences(g: Graph, s: nat, w: Walk, k: nat)
    requires IsGraph(g) && IsWalk(g, s, w) && |w| <= k
    ensures w in Sequences(Edges(g), k)
  {
    if w == [] {
      if k > 0 {
        WalkInSequences(g, s, w, k - 1);
      }
    } else {
      var init, e := w[..|w| - 1], w[|w| - 1];
      WalkInSequences(g, s, init, k - 1);
      var i :| 0 <= i < |g[End(s, init)]| && g[End(s, init)][i] == e;
      assert e in Edges(g);
      assert w == init + [e];
    }
  }

  lemma {:induction false} SimpleLength(g: Graph, s: nat, w: Walk)
    requires IsGraph(g) && IsWalk(g, s, w) && IsSimple(s, w)
    ensures Length(w) in Lengths(g)
  {
    SimpleIsShort(g, s, w);
    WalkInSequences(g, s, w, |g|);
  }

  function Below(lengths: set<real>, x: real): set<real> {
    set l | l in lengths && l < x
  }

  /** How many more values a distance can still drop to. */
  function Rank(lengths: set<real>, x: real): nat {
    |Below(lengths, x)|
  }

  function Potential(lengths: set<real>, d: seq<real>): nat {
    if d == [] then 0 else Potential(lengths, d[..|d| - 1]) + Rank(lengths, d[|d| - 1])
  }

  lemma {:induction false} PotentialUpdate(lengths: set<real>, d: seq<real>, v: nat, x: real)
    requires v < |d|
    ensures Potential(lengths, d[v := x]) == Potential(lengths, d) - Rank(lengths, d[v]) + Rank(lengths, x)
  {
    var last := |d| - 1;
    if v == last {
      assert d[v := x][..last] == d[..last];
    } else {
      assert d[v := x][..last] == d[..last][v := x];
      PotentialUpdate(lengths, d[..last], v, x);
    }
  }

  /** Every improvement uses up one of finitely many possibilities. */
  lemma {:induction false} PotentialDrops(lengths: set<real>, d: seq<real>, v: nat, x: real)
    requires v < |d| && x < d[v] && x in lengths
    ensures Potential(lengths, d[v := x]) < Potential(lengths, d)
  {
    PotentialUpdate(lengths, d, v, x);
    ProperSubsetSize(Below(lengths, x), Below(lengths, d[v]), x);
  }

  // ----- Exactness -----

  /** No edge out of `u` improves anything. */
  ghost predicate Relaxed(g: Graph, inf: real, d: seq<real>, u: nat)
    requires u < |g| == |d|
  {
    d[u] < inf ==> forall i | 0 <= i < |g[u]| && g[u][i].to < |d| :: d[g[u][i].to] <= d[u] + g[u][i].w
  }

  lemma {:induction false} RelaxedIsLower(g: Graph, inf: real, d: seq<real>, s: nat, via: seq<Walk>, w: Walk)
    requires IsGraph(g) && Tentative(g, inf, d, s, via) && IsWalk(g, s, w)
    requires forall u {:trigger Relaxed(g, inf, d, u)} | 0 <= u < |g| :: Relaxed(g, inf, d, u)
    ensures End(s, w) < |d| && d[End(s, w)] <= Length(w)
  {
    WalkFacts(g, s, w);
    if w != [] {
      var init, e := w[..|w| - 1], w[|w| - 1];
      RelaxedIsLower(g, inf, d, s, via, init);
      var u := End(s, init);
      assert Relaxed(g, inf, d, u);
      var i :| 0 <= i < |g[u]| && g[u][i] == e;
      WalkFacts(g, s, init);
    }
  }

  /** The distance table of a source: infinity where no walk is shorter, otherwise the least length of a walk. */
  ghost predicate IsDistances(g: Graph, inf: real, s: nat, d: seq<real>) {
    && |d| == |g|
    && (forall w | IsWalk(g, s, w) && End(s, w) < |d| :: d[End(s, w)] <= Length(w))
    && (forall v | 0 <= v < |d| ::
          d[v] == inf || (d[v] < inf && exists w :: IsWalk(g, s, w) && End(s, w) == v && Length(w) == d[v]))
  }

  lemma {:induction false} RelaxedIsExact(g: Graph, inf: real, d: seq<real>, s: nat, via: seq<Walk>)
    requires IsGraph(g) && Tentative(g, inf, d, s, via)
    requires forall u {:trigger Relaxed(g, inf, d, u)} | 0 <= u < |g| :: Relaxed(g, inf, d, u)
    ensures IsDistances(g, inf, s, d)
  {
    forall w | IsWalk(g, s, w) && End(s, w) < |d| ensures d[End(s, w)] <= Length(w) {
      RelaxedIsLower(g, inf, d, s, via, w);
    }
    forall v | 0 <= v < |d| && d[v] < inf ensures exists w :: IsWalk(g, s, w) && End(s, w) == v && Length(w) == d[v] {
      assert Witness(g, inf, d, s, v, via[v]);
    }
  }

  /** There is one such table. */
  lemma {:induction false} DistancesUnique(g: Graph, inf: real, s: nat, a: seq<real>, b: seq<real>)
    requires IsDistances(g, inf, s, a) && IsDistances(g, inf, s, b)
    ensures a == b
  {
    forall v | 0 <= v < |a| ensures a[v] == b[v] {
      if a[v] < inf {
        var w :| IsWalk(g, s, w) && End(s, w) == v && Length(w) == a[v];
        assert b[End(s, w)] <= Length(w);
      }
      if b[v] < inf {
        var w :| IsWalk(g, s, w) && End(s, w) == v && Length(w) == b[v];
        assert a[End(s, w)] <= Length(w);
      }
    }
  }

  /** With weights at most `maxW`, no tentative distance exceeds `maxW` for each vertex. */
  lemma {:induction false} LengthBound(g: Graph, s: nat, w: Walk, maxW: real)
    requires IsGraph(g) && IsWalk(g, s, w) && maxW >= 0.0
    requires forall u, i | 0 <= u < |g| && 0 <= i < |g[u]| :: g[u][i].w <= maxW
    ensures Length(w) <= |w| as real * maxW
  {
    if w != [] {
      var init, e := w[..|w| - 1], w[|w| - 1];
      LengthBound(g, s, init, maxW);
      WalkFacts(g, s, init);
      var i :| 0 <= i < |g[End(s, init)]| && g[End(s, init)][i] == e;
      assert |w| as real * maxW == |init| as real * maxW + maxW;
    }
  }

  lemma {:induction false} TentativeBound(g: Graph, inf: real, d: seq<real>, s: nat, via: seq<Walk>, v: nat, maxW: real)
    requires IsGraph(g) && Tentative(g, inf, d, s, via) && v < |d| && d[v] < inf && maxW >= 0.0
    requires forall u, i | 0 <= u < |g| && 0 <= i < |g[u]| :: g[u][i].w <= maxW
    ensures d[v] <= |g| as real * maxW
  {
    assert Witness(g, inf, d, s, v, via[v]);
    SimpleIsShort(g, s, via[v]);
    LengthBound(g, s, via[v], maxW);
    var a, b := |via[v]| as real, |g| as real;
    assert a <= b;
    assert (b - a) * maxW >= 0.0 && (b - a) * maxW == b * maxW - a * maxW;
  }
}
