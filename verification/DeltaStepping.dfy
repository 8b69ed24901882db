/** Delta-stepping single-source shortest paths with bucket fusion, run by one thread over real weights.

    A vertex whose distance improves goes into the bin of its new distance. An iteration takes one bin as its frontier,
    relaxes it, keeps relaxing what falls back into the same bin while that stays small, and moves on to the next
    non-empty bin. Stale entries are never removed. */
module DeltaStepping {
  import opened ShortestPaths

  const BIN_SIZE_THRESHOLD: nat := 1000

  /** The graph, the value for infinity, the bin width, the marker for "no bin", the source, and a bound on the weights. */
  datatype Problem = Problem(g: Graph, inf: real, delta: real, maxBin: nat, source: nat, maxW: real)
  {
    /** No distance reaches the bin numbered `maxBin`. */
    ghost predicate Ok() {
      && IsGraph(g) && source < |g| && inf > 0.0 && delta > 0.0 && maxW >= 0.0
      && (forall u, i | 0 <= u < |g| && 0 <= i < |g[u]| :: g[u][i].w <= maxW)
      && |g| as real * maxW < maxBin as real * delta
    }
  }

  type Bins = seq<seq<nat>>

  function BinOf(delta: real, x: real): int
    requires delta > 0.0
  {
    (x / delta).Floor
  }

  /** `local_bins[b].push_back(v)`, growing the list of bins first if needed. */
  function Pushed(bins: Bins, b: nat, v: nat): (r: Bins)
    ensures |r| > b && |r| >= |bins| && (|r| == |bins| || |r| == b + 1)
    ensures v in r[b] && forall c, x | 0 <= c < |bins| && x in bins[c] :: x in r[c]
    ensures forall c, x | 0 <= c < |r| && x in r[c] :: (c < |bins| && x in bins[c]) || x == v
  {
    var grown := if b < |bins| then bins else bins + seq(b + 1 - |bins|, _ => []);
    grown[b := grown[b] + [v]]
  }

  ghost predicate InBin(bins: Bins, delta: real, x: real, u: nat)
    requires delta > 0.0
  {
    0 <= BinOf(delta, x) < |bins| && u in bins[BinOf(delta, x)]
  }

  /** A vertex with an edge left to relax is about to be relaxed or sits in the bin of its distance. */
  ghost predicate Queued(p: Problem, d: seq<real>, bins: Bins, todo: seq<nat>, u: nat)
    requires u < |p.g| == |d| && p.delta > 0.0
  {
    Relaxed(p.g, p.inf, d, u) || u in todo || InBin(bins, p.delta, d[u], u)
  }

  /** ... and its distance is not below bin `cur`. */
  ghost predicate NotBelow(p: Problem, d: seq<real>, cur: nat, u: nat)
    requires u < |p.g| == |d|
  {
    Relaxed(p.g, p.inf, d, u) || d[u] >= p.delta * cur as real
  }

  ghost predicate Good(p: Problem, d: seq<real>, via: seq<Walk>, bins: Bins, todo: seq<nat>, cur: nat)
    requires p.Ok()
  {
    && Tentative(p.g, p.inf, d, p.source, via)
    && |bins| <= p.maxBin
    && (forall b, x | 0 <= b < |bins| && x in bins[b] :: x < |p.g|)
    && (forall x | x in todo :: x < |p.g|)
    && (forall u {:trigger Queued(p, d, bins, todo, u)} | 0 <= u < |p.g| :: Queued(p, d, bins, todo, u))
    && (forall u {:trigger NotBelow(p, d, cur, u)} | 0 <= u < |p.g| :: NotBelow(p, d, cur, u))
  }

  ghost function Left(p: Problem, d: seq<real>): nat {
    Potential(Lengths(p.g), d)
  }

  /** Either a distance improved or nothing changed. */
  ghost predicate Progress(p: Problem, d: seq<real>, bins: Bins, d': seq<real>, bins': Bins) {
    Left(p, d') < Left(p, d) || (d' == d && bins' == bins)
  }

  lemma {:induction false} BinBound(p: Problem, d: seq<real>, via: seq<Walk>, v: nat)
    requires p.Ok() && Tentative(p.g, p.inf, d, p.source, via) && v < |d| && d[v] < p.inf
    ensures 0 <= BinOf(p.delta, d[v]) < p.maxBin
  {
    TentativeBound(p.g, p.inf, d, p.source, via, v, p.maxW);
    QuotientBound(d[v], p.delta, p.maxBin as real);
  }

  lemma {:induction false} QuotientBound(x: real, delta: real, m: real)
    requires delta > 0.0 && 0.0 <= x < m * delta
    ensures 0.0 <= x / delta < m
  {
    var q := x / delta;
    assert q * delta == x;
    assert q >= m ==> (q - m) * delta >= 0.0;
    assert (q - m) * delta == q * delta - m * delta;
    assert q < 0.0 ==> q * delta < 0.0;
  }

  /** A distance not below `delta * cur` is in bin `cur` or later, and one in bin `b` is at least `delta * b`. */
  lemma {:induction false} BinOrder(delta: real, x: real, cur: nat)
    requires delta > 0.0
    ensures x >= delta * cur as real <==> BinOf(delta, x) >= cur
  {
    var q := x / delta;
    assert q * delta == x;
    assert (q - cur as real) * delta == x - delta * cur as real;
    assert q >= cur as real ==> (q - cur as real) * delta >= 0.0;
    assert q < cur as real ==> (q - cur as real) * delta < 0.0;
  }

  /** The edges of `u` up to number `i` improve nothing. */
  ghost predicate RelaxedUpTo(p: Problem, d: seq<real>, u: nat, i: nat)
    requires u < |p.g| == |d| && i <= |p.g[u]|
  {
    forall k | 0 <= k < i && p.g[u][k].to < |d| :: d[p.g[u][k].to] <= d[u] + p.g[u][k].w
  }

  /** Improving the neighbour over edge `i` of `u` and pushing it into its bin. */
  lemma {:induction false} RelaxOne(p: Problem, d: seq<real>, via: seq<Walk>, bins: Bins, todo: seq<nat>, cur: nat,
                                    u: nat, i: nat, e: Step, d': seq<real>, bins': Bins)
    requires p.Ok() && Good(p, d, via, bins, todo, cur) && u in todo && u < |p.g| && i < |p.g[u]| && e == p.g[u][i]
    requires e.to < |d| && d[u] + e.w < d[e.to] && d' == d[e.to := d[u] + e.w]
    requires BinOf(p.delta, d[u] + e.w) >= 0 && bins' == Pushed(bins, BinOf(p.delta, d[u] + e.w), e.to)
    requires RelaxedUpTo(p, d, u, i)
    ensures Good(p, d', via[e.to := via[u] + [e]], bins', todo, cur)
    ensures d'[u] == d[u] && RelaxedUpTo(p, d', u, i + 1) && Left(p, d') < Left(p, d)
  {
    Improve(p.g, p.inf, d, p.source, via, u, e);
    SimpleLength(p.g, p.source, via[u] + [e]);
    PotentialDrops(Lengths(p.g), d, e.to, d[u] + e.w);
    BinBound(p, d', via[e.to := via[u] + [e]], e.to);
    assert NotBelow(p, d, cur, u);
    assert !Relaxed(p.g, p.inf, d, u);
    forall x | 0 <= x < |p.g| ensures Queued(p, d', bins', todo, x) && NotBelow(p, d', cur, x) {
      assert Queued(p, d, bins, todo, x);
      assert NotBelow(p, d, cur, x);
      if x != e.to && Relaxed(p.g, p.inf, d, x) {
        assert Relaxed(p.g, p.inf, d', x);
      }
    }
  }

  lemma {:induction false} BinNonNegative(delta: real, x: real)
    requires delta > 0.0 && x >= 0.0
    ensures BinOf(delta, x) >= 0
  {
    BinOrder(delta, x, 0);
  }

  /** Relaxes every edge out of `u`; each neighbour that improves goes into the bin of its new distance. */
  method RelaxEdges(p: Problem, u: nat, dist: array<real>, localBins: Bins, ghost via: seq<Walk>, ghost todo: seq<nat>,
                    ghost cur: nat)
    returns (bins: Bins, ghost via': seq<Walk>)
    requires p.Ok() && u < |p.g| == dist.Length && Good(p, dist[..], via, localBins, [u] + todo, cur)
    modifies dist
    ensures Good(p, dist[..], via', bins, todo, cur)
    ensures Progress(p, old(dist[..]), localBins, dist[..], bins)
  {
    bins, via' := localBins, via;
    ghost var all := [u] + todo;
    for i := 0 to |p.g[u]|
      invariant Good(p, dist[..], via', bins, all, cur)
      invariant RelaxedUpTo(p, dist[..], u, i)
      invariant Progress(p, old(dist[..]), localBins, dist[..], bins)
    {
      var e := p.g[u][i];
      var oldDist, newDist := dist[e.to], dist[u] + e.w;
      if newDist < oldDist {
        ghost var d := dist[..];
        BinNonNegative(p.delta, newDist);
        dist[e.to] := newDist;
        var destBin := BinOf(p.delta, newDist);
        ghost var before := bins;
        bins := Pushed(bins, destBin, e.to);
        RelaxOne(p, d, via', before, all, cur, u, i, e, dist[..], bins);
        via' := via'[e.to := via'[u] + [e]];
      }
    }
    Settle(p, dist[..], via', bins, todo, cur, u);
  }

  lemma {:induction false} Settle(p: Problem, d: seq<real>, via: seq<Walk>, bins: Bins, todo: seq<nat>, cur: nat, u: nat)
    requires p.Ok() && u < |p.g| && Good(p, d, via, bins, [u] + todo, cur) && RelaxedUpTo(p, d, u, |p.g[u]|)
    ensures Good(p, d, via, bins, todo, cur)
  {
    assert Relaxed(p.g, p.inf, d, u);
    forall x | 0 <= x < |p.g| ensures Queued(p, d, bins, todo, x) {
      assert Queued(p, d, bins, [u] + todo, x);
    }
    forall x | x in todo ensures x < |p.g| {
      assert x in [u] + todo;
    }
  }

  lemma {:induction false} DropSettled(p: Problem, d: seq<real>, via: seq<Walk>, bins: Bins, todo: seq<nat>, cur: nat, u: nat)
    requires p.Ok() && u < |p.g| && Good(p, d, via, bins, [u] + todo, cur) && d[u] < p.delta * cur as real
    ensures Good(p, d, via, bins, todo, cur)
  {
    assert NotBelow(p, d, cur, u);
    Settle(p, d, via, bins, todo, cur, u);
  }

  lemma {:induction false} ProgressTrans(p: Problem, a: seq<real>, x: Bins, b: seq<real>, y: Bins, c: seq<real>, z: Bins)
    requires Progress(p, a, x, b, y) && Progress(p, b, y, c, z)
    ensures Progress(p, a, x, c, z)
  {
  }

  /** Relaxes the first `tail` vertices of the frontier, skipping those settled in an earlier bin. */
  method RelaxFrontier(p: Problem, frontier: seq<nat>, tail: nat, dist: array<real>, localBins: Bins, cur: nat,
                       ghost via: seq<Walk>)
    returns (bins: Bins, ghost via': seq<Walk>)
    requires p.Ok() && dist.Length == |p.g| && tail <= |frontier| && Good(p, dist[..], via, localBins, frontier[..tail], cur)
    modifies dist
    ensures Good(p, dist[..], via', bins, [], cur)
    ensures Progress(p, old(dist[..]), localBins, dist[..], bins)
  {
    bins, via' := localBins, via;
    assert frontier[0..tail] == frontier[..tail];
    for i := 0 to tail
      invariant Good(p, dist[..], via', bins, frontier[i..tail], cur)
      invariant Progress(p, old(dist[..]), localBins, dist[..], bins)
    {
      var u := frontier[i];
      assert frontier[i..tail] == [u] + frontier[i + 1..tail];
      assert u in frontier[i..tail];
      if dist[u] >= p.delta * cur as real {
        ghost var d, b := dist[..], bins;
        bins, via' := RelaxEdges(p, u, dist, bins, via', frontier[i + 1..tail], cur);
        ProgressTrans(p, old(dist[..]), localBins, d, b, dist[..], bins);
      } else {
        DropSettled(p, dist[..], via', bins, frontier[i + 1..tail], cur, u);
      }
    }
    assert frontier[tail..tail] == [];
  }

  function Entries(bins: Bins): nat {
    if bins == [] then 0 else Entries(bins[..|bins| - 1]) + |bins[|bins| - 1]|
  }

  lemma {:induction false} EmptyOne(bins: Bins, b: nat)
    requires b < |bins|
    ensures Entries(bins[b := []]) == Entries(bins) - |bins[b]|
  {
    var last := |bins| - 1;
    if b == last {
      assert bins[b := []][..last] == bins[..last];
    } else {
      assert bins[b := []][..last] == bins[..last][b := []];
      EmptyOne(bins[..last], b);
    }
  }

  /** Taking a bin out makes its entries the work at hand. */
  lemma {:induction false} TakeBin(p: Problem, d: seq<real>, via: seq<Walk>, bins: Bins, cur: nat, b: nat)
    requires p.Ok() && Good(p, d, via, bins, [], cur) && b < |bins|
    ensures Good(p, d, via, bins[b := []], bins[b], cur)
    ensures Entries(bins[b := []]) == Entries(bins) - |bins[b]|
  {
    EmptyOne(bins, b);
    var rest, taken := bins[b := []], bins[b];
    forall x | 0 <= x < |p.g| ensures Queued(p, d, rest, taken, x) {
      assert Queued(p, d, bins, [], x);
    }
  }

  /** Bucket fusion: relaxes what fell back into the current bin as long as that is little. */
  method Fuse(p: Problem, dist: array<real>, localBins: Bins, cur: nat, ghost via: seq<Walk>)
    returns (bins: Bins, ghost via': seq<Walk>)
    requires p.Ok() && dist.Length == |p.g| && Good(p, dist[..], via, localBins, [], cur)
    modifies dist
    ensures Good(p, dist[..], via', bins, [], cur)
    ensures Left(p, dist[..]) < Left(p, old(dist[..])) ||
            (dist[..] == old(dist[..]) && Entries(bins) <= Entries(localBins))
  {
    bins, via' := localBins, via;
    while cur < |bins| && bins[cur] != [] && |bins[cur]| < BIN_SIZE_THRESHOLD
      invariant Good(p, dist[..], via', bins, [], cur)
      invariant Left(p, dist[..]) < Left(p, old(dist[..])) ||
                (dist[..] == old(dist[..]) && Entries(bins) <= Entries(localBins))
      decreases Left(p, dist[..]), Entries(bins)
    {
      var copied := bins[cur];
      TakeBin(p, dist[..], via', bins, cur, cur);
      bins := bins[cur := []];
      bins, via' := RelaxFrontierUnchecked(p, copied, dist, bins, cur, via');
    }
  }

  /** Relaxes every vertex of a copied bin. */
  method RelaxFrontierUnchecked(p: Problem, copied: seq<nat>, dist: array<real>, localBins: Bins, cur: nat, ghost via: seq<Walk>)
    returns (bins: Bins, ghost via': seq<Walk>)
    requires p.Ok() && dist.Length == |p.g| && Good(p, dist[..], via, localBins, copied, cur)
    modifies dist
    ensures Good(p, dist[..], via', bins, [], cur)
    ensures Progress(p, old(dist[..]), localBins, dist[..], bins)
  {
    bins, via' := localBins, via;
    for i := 0 to |copied|
      invariant Good(p, dist[..], via', bins, copied[i..], cur)
      invariant Progress(p, old(dist[..]), localBins, dist[..], bins)
    {
      var u := copied[i];
      assert copied[i..] == [u] + copied[i + 1..];
      assert u in copied[i..];
      ghost var d, b := dist[..], bins;
      bins, via' := RelaxEdges(p, u, dist, bins, via', copied[i + 1..], cur);
      ProgressTrans(p, old(dist[..]), localBins, d, b, dist[..], bins);
    }
    assert copied[|copied|..] == [];
  }

  function Min(a: nat, b: nat): nat {
    if b < a then b else a
  }

  /** The vote on the next bin: the first non-empty one from `cur` on, if that is less than the vote so far. */
  method NextBin(bins: Bins, cur: nat, vote: nat) returns (next: nat)
    requires |bins| <= vote
    ensures if next < |bins| then cur <= next && bins[next] != [] else next == vote
    ensures forall b | cur <= b < |bins| && b < next :: bins[b] == []
  {
    next := vote;
    var i := cur;
    while i < |bins|
      invariant cur <= i && next == vote
      invariant forall b | cur <= b < i && b < |bins| :: bins[b] == []
    {
      if bins[i] != [] {
        next := Min(next, i);
        break;
      }
      i := i + 1;
    }
  }

  /** Nothing left to relax is in a bin before `next`. */
  lemma {:induction false} NextIsLowest(p: Problem, d: seq<real>, via: seq<Walk>, bins: Bins, cur: nat, next: nat)
    requires p.Ok() && Good(p, d, via, bins, [], cur)
    requires forall b | cur <= b < |bins| && b < next :: bins[b] == []
    ensures next < |bins| ==> Good(p, d, via, bins, [], next)
    ensures next >= |bins| ==> forall u {:trigger Relaxed(p.g, p.inf, d, u)} | 0 <= u < |p.g| :: Relaxed(p.g, p.inf, d, u)
  {
    forall u | 0 <= u < |p.g|
      ensures NotBelow(p, d, next, u) && (next >= |bins| ==> Relaxed(p.g, p.inf, d, u))
    {
      assert Queued(p, d, bins, [], u);
      assert NotBelow(p, d, cur, u);
      BinOrder(p.delta, d[u], cur);
      BinOrder(p.delta, d[u], next);
    }
  }

  /** Copies `xs` over the frontier from `start` on. */
  function CopiedInto(frontier: seq<nat>, start: nat, xs: seq<nat>): (r: seq<nat>)
    requires start <= |frontier|
    ensures |r| >= start + |xs| && r[start..start + |xs|] == xs
  {
    frontier[..start] + xs + (if start + |xs| < |frontier| then frontier[start + |xs|..] else [])
  }

  lemma {:induction false} InitialTable(p: Problem, d: seq<real>, via: seq<Walk>)
    requires p.Ok() && |d| == |via| == |p.g| && via == seq(|p.g|, _ => [])
    requires forall v | 0 <= v < |d| :: d[v] == if v == p.source then 0.0 else p.inf
    ensures Good(p, d, via, [], [p.source], 0) && p.maxBin > 0
  {
    forall v | 0 <= v < |d| ensures Witness(p.g, p.inf, d, p.source, v, via[v]) {}
    forall u | 0 <= u < |p.g| ensures Queued(p, d, [], [p.source], u) && NotBelow(p, d, 0, u) {}
    assert |p.g| as real * p.maxW >= 0.0;
    assert p.maxBin == 0 ==> p.maxBin as real * p.delta == 0.0;
  }

  method NewTable(p: Problem) returns (dist: array<real>)
    requires p.Ok()
    ensures fresh(dist) && dist.Length == |p.g|
    ensures forall v | 0 <= v < dist.Length :: dist[v] == if v == p.source then 0.0 else p.inf
  {
    dist := new real[|p.g|](_ => p.inf);
    dist[p.source] := 0.0;
  }

  /** One iteration: the frontier, the fused bucket, the vote and the copy of the next bin. */
  method Iterate(p: Problem, dist: array<real>, localBins: Bins, frontier: seq<nat>, tail: nat, cur: nat, ghost via: seq<Walk>)
    returns (bins: Bins, frontier': seq<nat>, tail': nat, next: nat, ghost via': seq<Walk>)
    requires p.Ok() && dist.Length == |p.g| && tail <= |frontier| && Good(p, dist[..], via, localBins, frontier[..tail], cur)
    modifies dist
    ensures tail' <= |frontier'| && Tentative(p.g, p.inf, dist[..], p.source, via')
    ensures next != p.maxBin ==> Good(p, dist[..], via', bins, frontier'[..tail'], next)
    ensures next == p.maxBin ==>
              forall u {:trigger Relaxed(p.g, p.inf, dist[..], u)} | 0 <= u < |p.g| :: Relaxed(p.g, p.inf, dist[..], u)
    ensures Left(p, dist[..]) < Left(p, old(dist[..])) ||
            (dist[..] == old(dist[..]) &&
             (if next == p.maxBin then Entries(bins) <= Entries(localBins) else Entries(bins) < Entries(localBins)))
  {
    bins, via' := RelaxFrontier(p, frontier, tail, dist, localBins, cur, via);
    bins, via' := Fuse(p, dist, bins, cur, via');
    next := NextBin(bins, cur, p.maxBin);
    NextIsLowest(p, dist[..], via', bins, cur, next);
    tail' := 0;
    frontier' := frontier;
    if next < |bins| {
      TakeBin(p, dist[..], via', bins, next, next);
      var copyStart := tail';
      tail' := tail' + |bins[next]|;
      frontier' := CopiedInto(frontier, copyStart, bins[next]);
      assert frontier'[..tail'] == frontier'[copyStart..copyStart + |bins[next]|];
      bins := bins[next := []];
    }
  }

  /** Terminates with the exact distances, whatever the graph, the bin width and the bins' sizes. */
  method DeltaStep(p: Problem) returns (dist: array<real>)
    requires p.Ok()
    ensures fresh(dist) && IsDistances(p.g, p.inf, p.source, dist[..])
  {
    dist := NewTable(p);
    ghost var via: seq<Walk> := seq(|p.g|, _ => []);
    var frontier: seq<nat> := [p.source];
    InitialTable(p, dist[..], via);
    // Double buffers: this iteration's values at `iter % 2`, the next one's at the other index.
    var sharedIndexes := new nat[2][0, p.maxBin];
    var frontierTails := new nat[2][1, 0];
    var bins: Bins := [];
    var iter: nat := 0;
    assert frontier[..1] == [p.source];
    while sharedIndexes[iter % 2] != p.maxBin
      invariant sharedIndexes[(iter + 1) % 2] == p.maxBin && frontierTails[(iter + 1) % 2] == 0
      invariant frontierTails[iter % 2] <= |frontier| && Tentative(p.g, p.inf, dist[..], p.source, via)
      invariant sharedIndexes[iter % 2] != p.maxBin ==>
                  Good(p, dist[..], via, bins, frontier[..frontierTails[iter % 2]], sharedIndexes[iter % 2])
      invariant sharedIndexes[iter % 2] == p.maxBin ==>
                  forall u {:trigger Relaxed(p.g, p.inf, dist[..], u)} | 0 <= u < |p.g| :: Relaxed(p.g, p.inf, dist[..], u)
      decreases Left(p, dist[..]), Entries(bins), if sharedIndexes[iter % 2] == p.maxBin then 0 else 1
    {
      var tail, next;
      bins, frontier, tail, next, via :=
        Iterate(p, dist, bins, frontier, frontierTails[iter % 2], sharedIndexes[iter % 2], via);
      sharedIndexes[iter % 2], frontierTails[iter % 2] := p.maxBin, 0;
      sharedIndexes[(iter + 1) % 2], frontierTails[(iter + 1) % 2] := next, tail;
      iter := iter + 1;
    }
    RelaxedIsExact(p.g, p.inf, dist[..], p.source, via);
  }
}
