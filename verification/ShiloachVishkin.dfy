/** Connected components by hooking and pointer jumping, run by one thread.

    A vertex that is not in the store has no neighbours here, and the neighbour lists name vertices by their ids. */
module ShiloachVishkin {

  type Adjacency = seq<seq<nat>>

  const WORD: nat := 0x1_0000_0000

  predicate IsGraph(adj: Adjacency) {
    |adj| < WORD && forall u, i | 0 <= u < |adj| && 0 <= i < |adj[u]| :: adj[u][i] < |adj|
  }

  // ----- Weak connectivity -----

  /** An edge in either direction. */
  predicate Linked(adj: Adjacency, a: nat, b: nat) {
    a < |adj| && b < |adj| && (b in adj[a] || a in adj[b])
  }

  ghost predicate ConnectedIn(adj: Adjacency, a: nat, b: nat, k: nat)
    decreases k
  {
    if k == 0 then a == b else exists m: nat :: ConnectedIn(adj, a, m, k - 1) && Linked(adj, m, b)
  }

  /** There is an undirected path. */
  ghost predicate Connected(adj: Adjacency, a: nat, b: nat) {
    exists k: nat :: ConnectedIn(adj, a, b, k)
  }

  lemma {:induction false} ConnectedSelf(adj: Adjacency, a: nat)
    ensures Connected(adj, a, a)
  {
    assert ConnectedIn(adj, a, a, 0);
  }

  lemma {:induction false} ConnectedStep(adj: Adjacency, a: nat, b: nat, c: nat)
    requires Connected(adj, a, b) && Linked(adj, b, c)
    ensures Connected(adj, a, c)
  {
    var k: nat :| ConnectedIn(adj, a, b, k);
    assert ConnectedIn(adj, a, c, k + 1);
  }

  lemma {:induction false} ConnectedInTrans(adj: Adjacency, a: nat, b: nat, c: nat, k: nat)
    requires Connected(adj, a, b) && ConnectedIn(adj, b, c, k)
    ensures Connected(adj, a, c)
    decreases k
  {
    if k > 0 {
      var m: nat :| ConnectedIn(adj, b, m, k - 1) && Linked(adj, m, c);
      ConnectedInTrans(adj, a, b, m, k - 1);
      ConnectedStep(adj, a, m, c);
    }
  }

  lemma {:induction false} ConnectedTrans(adj: Adjacency, a: nat, b: nat, c: nat)
    requires Connected(adj, a, b) && Connected(adj, b, c)
    ensures Connected(adj, a, c)
  {
    var k: nat :| ConnectedIn(adj, b, c, k);
    ConnectedInTrans(adj, a, b, c, k);
  }

  lemma {:induction false} ConnectedInSym(adj: Adjacency, a: nat, b: nat, k: nat)
    requires ConnectedIn(adj, a, b, k)
    ensures Connected(adj, b, a)
    decreases k
  {
    ConnectedSelf(adj, b);
    if k > 0 {
      var m: nat :| ConnectedIn(adj, a, m, k - 1) && Linked(adj, m, b);
      ConnectedInSym(adj, a, m, k - 1);
      ConnectedStep(adj, b, b, m);
      ConnectedTrans(adj, b, m, a);
    }
  }

  lemma {:induction false} ConnectedSym(adj: Adjacency, a: nat, b: nat)
    requires Connected(adj, a, b)
    ensures Connected(adj, b, a)
  {
    var k: nat :| ConnectedIn(adj, a, b, k);
    ConnectedInSym(adj, a, b, k);
  }

  // ----- Labels -----

  /** A label is no larger than its vertex and connected to it. */
  ghost predicate LabelOk(adj: Adjacency, comp: seq<nat>, x: nat)
    requires x < |comp|
  {
    comp[x] <= x && Connected(adj, x, comp[x])
  }

  ghost predicate Labels(adj: Adjacency, comp: seq<nat>) {
    |comp| == |adj| && forall x {:trigger LabelOk(adj, comp, x)} | 0 <= x < |comp| :: LabelOk(adj, comp, x)
  }

  predicate FlatAt(comp: seq<nat>, x: nat)
    requires x < |comp|
  {
    comp[x] < |comp| && comp[comp[x]] == comp[x]
  }

  /** The first `n` labels are their own labels. */
  ghost predicate Flat(comp: seq<nat>, n: nat)
    requires n <= |comp|
  {
    forall x {:trigger FlatAt(comp, x)} | 0 <= x < n :: FlatAt(comp, x)
  }

  function Sum(comp: seq<nat>): nat {
    if comp == [] then 0 else Sum(comp[..|comp| - 1]) + comp[|comp| - 1]
  }

  lemma {:induction false} SumUpdate(comp: seq<nat>, x: nat, y: nat)
    requires x < |comp|
    ensures Sum(comp[x := y]) == Sum(comp) - comp[x] + y
  {
    var last := |comp| - 1;
    if x == last {
      assert comp[x := y][..last] == comp[..last];
    } else {
      assert comp[x := y][..last] == comp[..last][x := y];
      SumUpdate(comp[..last], x, y);
    }
  }

  lemma {:induction false} Relabel(adj: Adjacency, comp: seq<nat>, x: nat, y: nat)
    requires Labels(adj, comp) && x < |comp| && y < comp[x] && Connected(adj, x, y)
    ensures Labels(adj, comp[x := y]) && Sum(comp[x := y]) < Sum(comp)
  {
    SumUpdate(comp, x, y);
    assert LabelOk(adj, comp, x);
    var comp' := comp[x := y];
    forall z | 0 <= z < |comp'| ensures LabelOk(adj, comp', z) {
      assert LabelOk(adj, comp, z);
    }
  }

  // ----- Hooking -----

  /** Unsigned 32-bit arithmetic. */
  function Wrap(x: int): nat {
    x % WORD
  }

  /** The smaller of two labels, computed with wrap-around. */
  function LowComp(u: nat, v: nat, high: nat): nat {
    Wrap(u + Wrap(v - high))
  }

  lemma {:induction false} LowIsMin(u: nat, v: nat)
    requires u < WORD && v < WORD
    ensures LowComp(u, v, if u > v then u else v) == if u < v then u else v
  {
  }

  /** Both ends of an edge carry connected labels. */
  lemma {:induction false} EdgeLabels(adj: Adjacency, comp: seq<nat>, n: nat, e: nat)
    requires Labels(adj, comp) && Linked(adj, n, e)
    ensures Connected(adj, comp[n], comp[e]) && Connected(adj, comp[e], comp[n])
    ensures comp[n] <= n && comp[e] <= e
  {
    assert LabelOk(adj, comp, n);
    assert LabelOk(adj, comp, e);
    ConnectedSym(adj, n, comp[n]);
    ConnectedStep(adj, comp[n], n, e);
    ConnectedTrans(adj, comp[n], e, comp[e]);
    ConnectedSym(adj, comp[n], comp[e]);
  }

  /** What a round has done so far: nothing, with the edges seen all inside one label, or made the labels smaller. */
  ghost predicate RoundOk(adj: Adjacency, start: seq<nat>, comp: seq<nat>, change: bool) {
    && Labels(adj, comp)
    && (change ==> Sum(comp) < Sum(start))
    && (!change ==> comp == start)
  }

  ghost predicate SameLabels(adj: Adjacency, comp: seq<nat>, n: nat, k: nat)
    requires n < |adj| == |comp| && k <= |adj[n]|
  {
    forall i | 0 <= i < k && adj[n][i] < |comp| :: comp[n] == comp[adj[n][i]]
  }

  /** One edge: the larger label, if it is a root, is hooked to the smaller one. */
  method HookEdge(adj: Adjacency, comp: array<nat>, n: nat, e: nat, change: bool, ghost start: seq<nat>) returns (change': bool)
    requires IsGraph(adj) && comp.Length == |adj| && n < |adj| && e in adj[n] && e < |adj|
    requires RoundOk(adj, start, comp[..], change) && |start| == |adj| && Flat(start, |start|)
    modifies comp
    ensures RoundOk(adj, start, comp[..], change') && (change ==> change')
    ensures !change' ==> comp[n] == comp[e]
  {
    change' := change;
    var compU, compV := comp[n], comp[e];
    if compU == compV {
      return;
    }
    EdgeLabels(adj, comp[..], n, e);
    var highComp := if compU > compV then compU else compV;
    var lowComp := LowComp(compU, compV, highComp);
    LowIsMin(compU, compV);
    assert FlatAt(start, n) && FlatAt(start, e);
    if highComp == comp[highComp] {
      change' := true;
      Relabel(adj, comp[..], highComp, lowComp);
      ghost var before := comp[..];
      comp[highComp] := lowComp;
      assert comp[..] == before[highComp := lowComp];
    }
  }

  method HookVertex(adj: Adjacency, comp: array<nat>, n: nat, change: bool, ghost start: seq<nat>) returns (change': bool)
    requires IsGraph(adj) && comp.Length == |adj| && n < |adj|
    requires RoundOk(adj, start, comp[..], change) && |start| == |adj| && Flat(start, |start|)
    modifies comp
    ensures RoundOk(adj, start, comp[..], change') && (change ==> change')
    ensures !change' ==> SameLabels(adj, start, n, |adj[n]|)
  {
    change' := change;
    for k := 0 to |adj[n]|
      invariant RoundOk(adj, start, comp[..], change') && (change ==> change')
      invariant !change' ==> SameLabels(adj, start, n, k)
    {
      change' := HookEdge(adj, comp, n, adj[n][k], change', start);
    }
  }

  ghost predicate AllSame(adj: Adjacency, comp: seq<nat>, n: nat)
    requires n <= |adj| == |comp|
  {
    forall u | 0 <= u < n :: SameLabels(adj, comp, u, |adj[u]|)
  }

  method HookRound(adj: Adjacency, comp: array<nat>) returns (change: bool)
    requires IsGraph(adj) && comp.Length == |adj| && Labels(adj, comp[..]) && Flat(comp[..], |adj|)
    modifies comp
    ensures RoundOk(adj, old(comp[..]), comp[..], change)
    ensures !change ==> AllSame(adj, comp[..], |adj|)
  {
    ghost var start := comp[..];
    change := false;
    for n := 0 to |adj|
      invariant RoundOk(adj, start, comp[..], change)
      invariant !change ==> AllSame(adj, start, n)
    {
      change := HookVertex(adj, comp, n, change, start);
    }
  }

  // ----- Pointer jumping -----

  /** Shortcuts the label of `n` until it is its own label. */
  method Jump(adj: Adjacency, comp: array<nat>, n: nat)
    requires comp.Length == |adj| && n < |adj| && Labels(adj, comp[..]) && Flat(comp[..], n)
    modifies comp
    ensures Labels(adj, comp[..]) && Flat(comp[..], n + 1) && Sum(comp[..]) <= old(Sum(comp[..]))
    ensures old(FlatAt(comp[..], n)) ==> comp[..] == old(comp[..])
  {
    assert LabelOk(adj, comp[..], n);
    while comp[n] != comp[comp[n]]
      invariant Labels(adj, comp[..]) && Flat(comp[..], n) && comp[n] <= n
      invariant Sum(comp[..]) <= old(Sum(comp[..]))
      invariant old(FlatAt(comp[..], n)) ==> comp[..] == old(comp[..])
      decreases comp[n]
    {
      JumpOnce(adj, comp[..], n);
      ghost var before := comp[..];
      comp[n] := comp[comp[n]];
      assert comp[..] == before[n := before[before[n]]];
    }
    assert FlatAt(comp[..], n);
  }

  lemma {:induction false} JumpOnce(adj: Adjacency, comp: seq<nat>, n: nat)
    requires Labels(adj, comp) && n < |comp| && Flat(comp, n) && comp[n] <= n && comp[n] != comp[comp[n]]
    ensures var comp' := comp[n := comp[comp[n]]];
            Labels(adj, comp') && Flat(comp', n) && comp'[n] < comp[n] && Sum(comp') < Sum(comp)
  {
    var m := comp[n];
    assert LabelOk(adj, comp, n);
    assert LabelOk(adj, comp, m);
    ConnectedTrans(adj, n, m, comp[m]);
    Relabel(adj, comp, n, comp[m]);
    var comp' := comp[n := comp[m]];
    forall x | 0 <= x < n ensures FlatAt(comp', x) {
      assert FlatAt(comp, x);
      assert LabelOk(adj, comp, x);
    }
  }

  method JumpAll(adj: Adjacency, comp: array<nat>)
    requires comp.Length == |adj| && Labels(adj, comp[..])
    modifies comp
    ensures Labels(adj, comp[..]) && Flat(comp[..], |adj|) && Sum(comp[..]) <= old(Sum(comp[..]))
    ensures old(Flat(comp[..], |adj|)) ==> comp[..] == old(comp[..])
  {
    for n := 0 to |adj|
      invariant Labels(adj, comp[..]) && Flat(comp[..], n) && Sum(comp[..]) <= old(Sum(comp[..]))
      invariant old(Flat(comp[..], |adj|)) ==> comp[..] == old(comp[..])
    {
      assert old(Flat(comp[..], |adj|)) ==> FlatAt(comp[..], n);
      Jump(adj, comp, n);
    }
  }

  // ----- The whole algorithm -----

  /** Every label is the smallest vertex of its component. */
  ghost predicate IsComponentMinimum(adj: Adjacency, comp: seq<nat>, v: nat)
    requires v < |comp|
  {
    Connected(adj, v, comp[v]) && forall x | 0 <= x < |adj| && Connected(adj, v, x) :: comp[v] <= x
  }

  ghost predicate IsLabelling(adj: Adjacency, comp: seq<nat>) {
    && |comp| == |adj|
    && (forall v | 0 <= v < |comp| :: IsComponentMinimum(adj, comp, v))
    && (forall u, v | 0 <= u < |comp| && 0 <= v < |comp| :: comp[u] == comp[v] <==> Connected(adj, u, v))
  }

  lemma {:induction false} SameAcross(adj: Adjacency, comp: seq<nat>, a: nat, b: nat, k: nat)
    requires IsGraph(adj) && |comp| == |adj| && AllSame(adj, comp, |adj|) && a < |adj| && ConnectedIn(adj, a, b, k)
    ensures b < |adj| && comp[a] == comp[b]
    decreases k
  {
    if k > 0 {
      var m: nat :| ConnectedIn(adj, a, m, k - 1) && Linked(adj, m, b);
      SameAcross(adj, comp, a, m, k - 1);
      if b in adj[m] {
        assert SameLabels(adj, comp, m, |adj[m]|);
        var i :| 0 <= i < |adj[m]| && adj[m][i] == b;
      } else {
        assert SameLabels(adj, comp, b, |adj[b]|);
        var i :| 0 <= i < |adj[b]| && adj[b][i] == m;
      }
    }
  }

  lemma {:induction false} StableIsLabelling(adj: Adjacency, comp: seq<nat>)
    requires IsGraph(adj) && Labels(adj, comp) && AllSame(adj, comp, |adj|)
    ensures IsLabelling(adj, comp)
  {
    forall u, v | 0 <= u < |comp| && 0 <= v < |comp| ensures comp[u] == comp[v] <==> Connected(adj, u, v) {
      assert LabelOk(adj, comp, u);
      assert LabelOk(adj, comp, v);
      if Connected(adj, u, v) {
        var k: nat :| ConnectedIn(adj, u, v, k);
        SameAcross(adj, comp, u, v, k);
      }
      if comp[u] == comp[v] {
        ConnectedSym(adj, v, comp[v]);
        ConnectedTrans(adj, u, comp[u], v);
      }
    }
    forall v | 0 <= v < |comp| ensures IsComponentMinimum(adj, comp, v) {
      assert LabelOk(adj, comp, v);
      forall x | 0 <= x < |adj| && Connected(adj, v, x) ensures comp[v] <= x {
        assert LabelOk(adj, comp, x);
        assert comp[v] == comp[x];
      }
    }
  }

  lemma {:induction false} IdentityLabels(adj: Adjacency, comp: seq<nat>)
    requires |comp| == |adj| && forall x | 0 <= x < |comp| :: comp[x] == x
    ensures Labels(adj, comp) && Flat(comp, |comp|)
  {
    forall x | 0 <= x < |comp| ensures LabelOk(adj, comp, x) {
      ConnectedSelf(adj, x);
    }
  }

  /** Terminates with every vertex labelled by the smallest vertex connected to it, so that labels agree exactly on weakly
      connected vertices. */
  method Components(adj: Adjacency) returns (comp: array<nat>)
    requires IsGraph(adj)
    ensures fresh(comp) && IsLabelling(adj, comp[..])
  {
    comp := new nat[|adj|](n => n);
    IdentityLabels(adj, comp[..]);
    var change := true;
    while change
      invariant Labels(adj, comp[..]) && Flat(comp[..], |adj|)
      invariant !change ==> AllSame(adj, comp[..], |adj|)
      decreases Sum(comp[..]), if change then 1 else 0
    {
      change := HookRound(adj, comp);
      JumpAll(adj, comp);
    }
    StableIsLabelling(adj, comp[..]);
  }
}
