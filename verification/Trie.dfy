/** The radix tree as a value: nodes in a pool, addressed by number, and what following prefixes from the root finds.

    The tree stores addresses as integers and casts them; `Ref` tags each with what it points at. A leaf slot of the last
    level holds a vertex, every other non-null slot holds a node. */
module Trie {
  import opened MixedRadix

  datatype Ref = Null | NodeAt(a: nat) | VertexAt(v: nat)

  type Children = seq<Ref>

  datatype Tree = Tree(pool: seq<Children>, root: Ref, ws: seq<nat>)

  function Nulls(n: nat): (s: Children)
    ensures |s| == n && forall i | 0 <= i < n :: s[i] == Null
  {
    seq(n, _ => Null)
  }

  function Child(pool: seq<Children>, r: Ref, j: nat): Ref {
    if r.NodeAt? && r.a < |pool| && j < |pool[r.a]| then pool[r.a][j] else Null
  }

  /** What the root path with prefix code `c` leads to after `i` levels. */
  function At(t: Tree, i: nat, c: nat): Ref
    requires i <= |t.ws|
  {
    if i == 0 then (if c == 0 then t.root else Null)
    else
      var w := Pow2(t.ws[i - 1]);
      Child(t.pool, At(t, i - 1, Quotient(c, w)), Remainder(c, w))
  }

  function Lookup(t: Tree, id: nat): Ref {
    At(t, |t.ws|, Key(t.ws, id))
  }

  /** The prefix code one level below `c`, at digit `j`. */
  function Join(ws: seq<nat>, i: nat, c: nat, j: nat): nat
    requires i < |ws|
  {
    c * Pow2(ws[i]) + j
  }

  lemma {:induction false} JoinSplits(ws: seq<nat>, i: nat, c: nat, j: nat)
    requires i < |ws| && j < Pow2(ws[i])
    ensures Quotient(Join(ws, i, c, j), Pow2(ws[i])) == c && Remainder(Join(ws, i, c, j), Pow2(ws[i])) == j
  {
    Split(c, Pow2(ws[i]), j);
  }

  lemma {:induction false} SplitJoins(ws: seq<nat>, i: nat, n: nat)
    requires i < |ws|
    ensures Join(ws, i, Quotient(n, Pow2(ws[i])), Remainder(n, Pow2(ws[i]))) == n
    ensures Remainder(n, Pow2(ws[i])) < Pow2(ws[i])
  {
    DivMod(n, Pow2(ws[i]));
  }

  /** One step down from the node at prefix `c`. */
  lemma {:induction false} AtChild(t: Tree, i: nat, c: nat, j: nat)
    requires i < |t.ws| && j < Pow2(t.ws[i])
    ensures At(t, i + 1, Join(t.ws, i, c, j)) == Child(t.pool, At(t, i, c), j)
  {
    JoinSplits(t.ws, i, c, j);
  }

  lemma {:induction false} AtStep(t: Tree, i: nat, id: nat)
    requires i < |t.ws|
    ensures At(t, i + 1, Prefix(t.ws, i + 1, id)) == Child(t.pool, At(t, i, Prefix(t.ws, i, id)), Digit(t.ws, i, id))
  {
    PrefixStep(t.ws, i, id);
  }

  // ----- Shape -----

  /** `leaves` maps keys to leaf slots; `spot` maps node addresses back to level and prefix. */
  type Leaves = map<nat, Ref>
  type Spots = map<nat, (nat, nat)>

  /** The prefixes of the stored keys at level `i`. */
  function Prefixes(ws: seq<nat>, leaves: Leaves, i: nat): set<nat>
    requires i <= |ws|
  {
    set x | x in leaves :: Prefix(ws, i, x)
  }

  /** There is a path with prefix `c` at level `i`: of a stored key, or of `x` as far as `k` levels down. */
  ghost predicate Present(ws: seq<nat>, leaves: Leaves, x: nat, k: nat, i: nat, c: nat)
    requires i <= |ws|
  {
    c in Prefixes(ws, leaves, i) || (i <= k && c == Prefix(ws, i, x))
  }

  /** What a non-empty prefix above the leaves leads to: a node of the width of its level, at its own spot. */
  ghost predicate NodeOk(t: Tree, spot: Spots, i: nat, c: nat)
    requires i <= |t.ws|
  {
    i < |t.ws| && At(t, i, c) != Null ==>
      && At(t, i, c).NodeAt? && At(t, i, c).a < |t.pool| && |t.pool[At(t, i, c).a]| == Pow2(t.ws[i])
      && At(t, i, c).a in spot && spot[At(t, i, c).a] == (i, c)
  }

  /** The heap shape: following two different prefixes never leads to the same node. */
  ghost predicate Rooted(t: Tree, spot: Spots) {
    forall i, c {:trigger NodeOk(t, spot, i, c)} | 0 <= i <= |t.ws| && 0 <= c :: NodeOk(t, spot, i, c)
  }

  ghost predicate SpotOk(t: Tree, spot: Spots, leaves: Leaves, x: nat, k: nat, i: nat, c: nat)
    requires i <= |t.ws|
  {
    && (At(t, i, c) != Null <==> Present(t.ws, leaves, x, k, i, c))
    && NodeOk(t, spot, i, c)
    && (i == |t.ws| && c in leaves ==> At(t, i, c) == leaves[c])
  }

  /** Exactly the prefixes of the stored keys have nodes, each its own and of the width of its level, and the leaf slots
      are as listed; half-way through an insertion the first `k` levels of the path of `x` exist as well. */
  ghost predicate TreeOk(t: Tree, spot: Spots, leaves: Leaves, x: nat, k: nat) {
    && k < |t.ws| && t.root.NodeAt?
    && (forall c | c in leaves :: c < Pow2(Total(t.ws)) && leaves[c] != Null)
    && (forall i, c {:trigger SpotOk(t, spot, leaves, x, k, i, c)} | 0 <= i <= |t.ws| && 0 <= c ::
          SpotOk(t, spot, leaves, x, k, i, c))
  }

  lemma {:induction false} TreeIsRooted(t: Tree, spot: Spots, leaves: Leaves, x: nat, k: nat)
    requires TreeOk(t, spot, leaves, x, k)
    ensures Rooted(t, spot)
  {
    forall i, c | 0 <= i <= |t.ws| && 0 <= c ensures NodeOk(t, spot, i, c) {
      assert SpotOk(t, spot, leaves, x, k, i, c);
    }
  }

  /** Lookup is a map from keys. */
  lemma {:induction false} LookupIsMap(t: Tree, spot: Spots, leaves: Leaves, x: nat, k: nat, id: nat)
    requires TreeOk(t, spot, leaves, x, k)
    ensures Lookup(t, id) == if Key(t.ws, id) in leaves then leaves[Key(t.ws, id)] else Null
  {
    var c := Key(t.ws, id);
    assert SpotOk(t, spot, leaves, x, k, |t.ws|, c);
    LeafPrefix(t.ws, leaves, c);
  }

  lemma {:induction false} KeyPrefix(ws: seq<nat>, x: nat)
    requires x < Pow2(Total(ws))
    ensures Key(ws, x) == x && Prefix(ws, |ws|, x) == x
  {
    ModShrinks(x, Pow2(Total(ws)));
    PrefixEnds(ws, x);
  }

  lemma {:induction false} LeafPrefix(ws: seq<nat>, leaves: Leaves, c: nat)
    requires forall c | c in leaves :: c < Pow2(Total(ws))
    ensures c in Prefixes(ws, leaves, |ws|) <==> c in leaves
  {
    forall x | x in leaves ensures Prefix(ws, |ws|, x) == x {
      KeyPrefix(ws, x);
    }
  }

  // ----- Filling one empty slot -----

  function Put(pool: seq<Children>, a: nat, j: nat, r: Ref): seq<Children>
    requires a < |pool| && j < |pool[a]|
  {
    pool[a := pool[a][j := r]]
  }

  /** `r` has no children of its own. */
  ghost predicate Barren(pool: seq<Children>, r: Ref) {
    forall m {:trigger Child(pool, r, m)} | 0 <= m :: Child(pool, r, m) == Null
  }

  /** `t'` is `t` with the empty slot `j` of the node at `(i, c)` pointing to `r`, which has no children. */
  ghost predicate Filled(t: Tree, t': Tree, i: nat, c: nat, j: nat, r: Ref) {
    && i < |t.ws| && t'.ws == t.ws && t'.root == t.root && j < Pow2(t.ws[i])
    && At(t, i, c).NodeAt? && At(t, i, c).a < |t.pool| && j < |t.pool[At(t, i, c).a]|
    && t.pool[At(t, i, c).a][j] == Null
    && |t'.pool| >= |t.pool| && t'.pool[..|t.pool|] == Put(t.pool, At(t, i, c).a, j, r)
    && (i + 1 < |t.ws| ==> Barren(t'.pool, r))
  }

  lemma {:induction false} FilledWithNode(t: Tree, t': Tree, i: nat, c: nat, j: nat, n: nat)
    requires i < |t.ws| && t'.ws == t.ws && t'.root == t.root && j < Pow2(t.ws[i])
    requires At(t, i, c).NodeAt? && At(t, i, c).a < |t.pool| && j < |t.pool[At(t, i, c).a]|
    requires t.pool[At(t, i, c).a][j] == Null
    requires t'.pool == Put(t.pool + [Nulls(n)], At(t, i, c).a, j, NodeAt(|t.pool|))
    ensures Filled(t, t', i, c, j, NodeAt(|t.pool|))
    ensures |t'.pool| == |t.pool| + 1 && t'.pool[|t.pool|] == Nulls(n)
  {
    assert t'.pool[..|t.pool|] == Put(t.pool, At(t, i, c).a, j, NodeAt(|t.pool|));
  }

  lemma {:induction false} FilledWithLeaf(t: Tree, t': Tree, i: nat, c: nat, j: nat, r: Ref)
    requires i < |t.ws| && t'.ws == t.ws && t'.root == t.root && j < Pow2(t.ws[i])
    requires At(t, i, c).NodeAt? && At(t, i, c).a < |t.pool| && j < |t.pool[At(t, i, c).a]|
    requires t.pool[At(t, i, c).a][j] == Null && i + 1 == |t.ws|
    requires t'.pool == Put(t.pool, At(t, i, c).a, j, r)
    ensures Filled(t, t', i, c, j, r)
  {
    assert t'.pool[..|t.pool|] == t'.pool;
  }

  lemma {:induction false} ChildAfterPut(pool: seq<Children>, pool': seq<Children>, a: nat, j: nat, r: Ref, p: Ref, m: nat)
    requires a < |pool| && j < |pool[a]| && |pool'| >= |pool| && pool'[..|pool|] == Put(pool, a, j, r)
    requires p.NodeAt? ==> p.a < |pool|
    ensures Child(pool', p, m) == if p == NodeAt(a) && m == j then r else Child(pool, p, m)
  {
    if p.NodeAt? {
      assert pool'[p.a] == pool'[..|pool|][p.a];
    }
  }

  /** Two prefixes never share a node. */
  lemma {:induction false} OneSpot(t: Tree, spot: Spots, i: nat, c: nat, i': nat, c': nat)
    requires Rooted(t, spot) && i < |t.ws| && i' < |t.ws|
    requires At(t, i, c) == At(t, i', c') && At(t, i, c) != Null
    ensures i == i' && c == c'
  {
    assert NodeOk(t, spot, i, c);
    assert NodeOk(t, spot, i', c');
  }

  /** Filling an empty slot changes what one prefix leads to and nothing else. */
  lemma {:induction false} AtAfterPut(t: Tree, t': Tree, spot: Spots, i: nat, c: nat, j: nat, r: Ref, i': nat, c': nat)
    requires Rooted(t, spot) && Filled(t, t', i, c, j, r) && i' <= |t.ws|
    ensures At(t', i', c') == if i' == i + 1 && c' == Join(t.ws, i, c, j) then r else At(t, i', c')
    decreases i'
  {
    if i' > 0 {
      var w := Pow2(t.ws[i' - 1]);
      var q, m := Quotient(c', w), Remainder(c', w);
      AtAfterPut(t, t', spot, i, c, j, r, i' - 1, q);
      SplitJoins(t.ws, i' - 1, c');
      var p := At(t, i' - 1, q);
      assert NodeOk(t, spot, i' - 1, q);
      AtChild(t, i, c, j);
      if i' - 1 == i + 1 && q == Join(t.ws, i, c, j) {
        assert Child(t'.pool, r, m) == Null;
      } else {
        ChildAfterPut(t.pool, t'.pool, At(t, i, c).a, j, r, p, m);
        if p == At(t, i, c) {
          OneSpot(t, spot, i' - 1, q, i, c);
        }
        if i' == i + 1 && c' == Join(t.ws, i, c, j) {
          JoinSplits(t.ws, i, c, j);
        }
      }
    }
  }

  // ----- Insertion, one level at a time -----

  lemma {:induction false} PrefixOfKey(ws: seq<nat>, i: nat, x: nat)
    requires i <= |ws|
    ensures Prefix(ws, i, Key(ws, x)) == Prefix(ws, i, x)
  {
    KeyOfKey(ws, x);
  }

  /** A new root: an empty tree. */
  lemma {:induction false} EmptyTree(t: Tree, spot: Spots, x: nat)
    requires |t.ws| > 0 && t.root.NodeAt? && t.root.a < |t.pool| && t.pool[t.root.a] == Nulls(Pow2(t.ws[0]))
    requires spot == map[t.root.a := (0, 0)]
    ensures TreeOk(t, spot, map[], x, 0)
  {
    forall i, c | 0 <= i <= |t.ws| && 0 <= c ensures SpotOk(t, spot, map[], x, 0, i, c) {
      PrefixEnds(t.ws, x);
      if i > 0 {
        EmptyBelowRoot(t, i, c);
      }
    }
  }

  lemma {:induction false} EmptyBelowRoot(t: Tree, i: nat, c: nat)
    requires 0 < i <= |t.ws| && t.root.NodeAt? && t.root.a < |t.pool| && t.pool[t.root.a] == Nulls(Pow2(t.ws[0]))
    ensures At(t, i, c) == Null
  {
    if i > 1 {
      EmptyBelowRoot(t, i - 1, Quotient(c, Pow2(t.ws[i - 1])));
    }
  }

  /** At rest the tree can be read with any id in mind. */
  lemma {:induction false} Restart(t: Tree, spot: Spots, leaves: Leaves, x: nat, k: nat, y: nat)
    requires TreeOk(t, spot, leaves, x, k) && (k == 0 || Key(t.ws, x) in leaves)
    ensures TreeOk(t, spot, leaves, y, 0)
  {
    forall i, c | 0 <= i <= |t.ws| && 0 <= c ensures SpotOk(t, spot, leaves, y, 0, i, c) {
      assert SpotOk(t, spot, leaves, x, k, i, c);
      PrefixEnds(t.ws, x);
      PrefixEnds(t.ws, y);
      PrefixOfKey(t.ws, i, x);
      if i == 0 && c in Prefixes(t.ws, leaves, i) {
        var z :| z in leaves && Prefix(t.ws, i, z) == c;
        PrefixEnds(t.ws, z);
      }
    }
  }

  /** Following an existing child. */
  lemma {:induction false} StepDown(t: Tree, spot: Spots, leaves: Leaves, x: nat, i: nat)
    requires TreeOk(t, spot, leaves, x, i) && i + 1 < |t.ws| && At(t, i + 1, Prefix(t.ws, i + 1, x)) != Null
    ensures TreeOk(t, spot, leaves, x, i + 1)
  {
    var k := i + 1;
    assert SpotOk(t, spot, leaves, x, i, k, Prefix(t.ws, k, x));
    forall i', c | 0 <= i' <= |t.ws| && 0 <= c ensures SpotOk(t, spot, leaves, x, k, i', c) {
      assert SpotOk(t, spot, leaves, x, i, i', c);
    }
  }

  /** Creating the missing inner node of level `i + 1`. */
  lemma {:induction false} AddNode(t: Tree, t': Tree, spot: Spots, leaves: Leaves, x: nat, i: nat, j: nat)
    requires TreeOk(t, spot, leaves, x, i) && i + 1 < |t.ws| && j == Digit(t.ws, i, x)
    requires Filled(t, t', i, Prefix(t.ws, i, x), j, NodeAt(|t.pool|))
    requires |t'.pool| == |t.pool| + 1 && t'.pool[|t.pool|] == Nulls(Pow2(t.ws[i + 1]))
    ensures TreeOk(t', spot[|t.pool| := (i + 1, Prefix(t.ws, i + 1, x))], leaves, x, i + 1)
  {
    var n := |t.pool|;
    var k := i + 1;
    var spot' := spot[n := (k, Prefix(t.ws, k, x))];
    PrefixStep(t.ws, i, x);
    TreeIsRooted(t, spot, leaves, x, i);
    forall i', c | 0 <= i' <= |t.ws| && 0 <= c ensures SpotOk(t', spot', leaves, x, k, i', c) {
      assert SpotOk(t, spot, leaves, x, i, i', c);
      AtAfterPut(t, t', spot, i, Prefix(t.ws, i, x), j, NodeAt(n), i', c);
      WidthKept(t, t', i, Prefix(t.ws, i, x), j, NodeAt(n), At(t, i', c));
    }
  }

  /** Writing the leaf slot of `x`. */
  lemma {:induction false} AddLeaf(t: Tree, t': Tree, spot: Spots, leaves: Leaves, x: nat, i: nat, j: nat, r: Ref)
    requires TreeOk(t, spot, leaves, x, i) && i + 1 == |t.ws| && j == Digit(t.ws, i, x) && r != Null
    requires Filled(t, t', i, Prefix(t.ws, i, x), j, r)
    ensures TreeOk(t', spot, leaves[Key(t.ws, x) := r], x, i)
  {
    var y := Key(t.ws, x);
    var leaves' := leaves[y := r];
    PrefixStep(t.ws, i, x);
    KeyOfKey(t.ws, x);
    PrefixEnds(t.ws, x);
    TreeIsRooted(t, spot, leaves, x, i);
    forall i', c | 0 <= i' <= |t.ws| && 0 <= c ensures SpotOk(t', spot, leaves', x, i, i', c) {
      assert SpotOk(t, spot, leaves, x, i, i', c);
      AtAfterPut(t, t', spot, i, Prefix(t.ws, i, x), j, r, i', c);
      WidthKept(t, t', i, Prefix(t.ws, i, x), j, r, At(t, i', c));
      PrefixOfKey(t.ws, i', x);
      MorePrefixes(t.ws, leaves, i', y, r);
    }
  }

  lemma {:induction false} WidthKept(t: Tree, t': Tree, i: nat, c: nat, j: nat, r: Ref, p: Ref)
    requires Filled(t, t', i, c, j, r)
    ensures p.NodeAt? && p.a < |t.pool| ==> p.a < |t'.pool| && |t'.pool[p.a]| == |t.pool[p.a]|
  {
    if p.NodeAt? && p.a < |t.pool| {
      assert t'.pool[p.a] == t'.pool[..|t.pool|][p.a];
    }
  }

  lemma {:induction false} MorePrefixes(ws: seq<nat>, leaves: Leaves, i: nat, y: nat, r: Ref)
    requires i <= |ws|
    ensures Prefixes(ws, leaves[y := r], i) == Prefixes(ws, leaves, i) + {Prefix(ws, i, y)}
  {
    var more := leaves[y := r];
    forall c | c in Prefixes(ws, leaves, i) + {Prefix(ws, i, y)} ensures c in Prefixes(ws, more, i) {
      if c == Prefix(ws, i, y) {
        assert y in more;
      } else {
        var z :| z in leaves && Prefix(ws, i, z) == c;
        assert z in more;
      }
    }
  }

  /** A walk for `x` stands at `current` after `i` levels. */
  ghost predicate Standing(t: Tree, spot: Spots, leaves: Leaves, x: nat, i: nat, current: Ref) {
    TreeOk(t, spot, leaves, x, i) && current == At(t, i, Prefix(t.ws, i, x))
  }

  /** The slot a walk looks at next. */
  lemma {:induction false} Slot(t: Tree, spot: Spots, leaves: Leaves, x: nat, i: nat, current: Ref)
    requires Standing(t, spot, leaves, x, i, current)
    ensures current.NodeAt? && current.a < |t.pool| && |t.pool[current.a]| == Pow2(t.ws[i])
    ensures Digit(t.ws, i, x) < Pow2(t.ws[i])
    ensures t.pool[current.a][Digit(t.ws, i, x)] == At(t, i + 1, Prefix(t.ws, i + 1, x))
  {
    assert SpotOk(t, spot, leaves, x, i, i, Prefix(t.ws, i, x));
    PrefixStep(t.ws, i, x);
    AtStep(t, i, x);
  }

  /** Linking a new node into the slot. */
  lemma {:induction false} LinkNode(t: Tree, t': Tree, spot: Spots, leaves: Leaves, x: nat, i: nat, current: Ref)
    requires Standing(t, spot, leaves, x, i, current) && i + 1 < |t.ws| && At(t, i + 1, Prefix(t.ws, i + 1, x)) == Null
    requires current.NodeAt? && current.a < |t.pool| && Digit(t.ws, i, x) < |t.pool[current.a]|
    requires t' == Tree(Put(t.pool + [Nulls(Pow2(t.ws[i + 1]))], current.a, Digit(t.ws, i, x), NodeAt(|t.pool|)), t.root, t.ws)
    ensures Standing(t', spot[|t.pool| := (i + 1, Prefix(t.ws, i + 1, x))], leaves, x, i + 1, NodeAt(|t.pool|))
  {
    var j := Digit(t.ws, i, x);
    var c := Prefix(t.ws, i, x);
    Slot(t, spot, leaves, x, i, current);
    FilledWithNode(t, t', i, c, j, Pow2(t.ws[i + 1]));
    AddNode(t, t', spot, leaves, x, i, j);
    TreeIsRooted(t, spot, leaves, x, i);
    AtAfterPut(t, t', spot, i, c, j, NodeAt(|t.pool|), i + 1, Prefix(t.ws, i + 1, x));
    PrefixStep(t.ws, i, x);
  }

  /** Linking a leaf into the slot. A node may be linked as a leaf too; nothing follows it from there. */
  lemma {:induction false} LinkLeaf(t: Tree, t': Tree, spot: Spots, leaves: Leaves, x: nat, i: nat, current: Ref, r: Ref)
    requires Standing(t, spot, leaves, x, i, current) && i + 1 == |t.ws| && At(t, i + 1, Prefix(t.ws, i + 1, x)) == Null
    requires current.NodeAt? && current.a < |t.pool| && Digit(t.ws, i, x) < |t.pool[current.a]| && r != Null
    requires t' == Tree(Put(t.pool, current.a, Digit(t.ws, i, x), r), t.root, t.ws)
    ensures TreeOk(t', spot, leaves[Key(t.ws, x) := r], x, i)
  {
    var j := Digit(t.ws, i, x);
    Slot(t, spot, leaves, x, i, current);
    FilledWithLeaf(t, t', i, Prefix(t.ws, i, x), j, r);
    AddLeaf(t, t', spot, leaves, x, i, j, r);
  }

  /** Nothing hangs below an empty slot. */
  lemma {:induction false} NullBelow(t: Tree, spot: Spots, leaves: Leaves, x: nat, k: nat, i: nat)
    requires TreeOk(t, spot, leaves, x, k) && i <= |t.ws| && At(t, i, Prefix(t.ws, i, x)) == Null
    ensures Key(t.ws, x) !in leaves
  {
    assert SpotOk(t, spot, leaves, x, k, i, Prefix(t.ws, i, x));
    PrefixOfKey(t.ws, i, x);
  }

  // ----- Listing a level -----

  /** What is at level `i` below code `hi`, in ascending order. */
  function Listing(t: Tree, i: nat, hi: nat): seq<(Ref, nat)>
    requires i <= |t.ws|
  {
    if hi == 0 then []
    else Listing(t, i, hi - 1) + (if At(t, i, hi - 1) != Null then [(At(t, i, hi - 1), hi - 1)] else [])
  }

  /** The first `n` children of a node at level `i`, the inner loop of the breadth-first collection. */
  function ExpandNode(t: Tree, i: nat, u: (Ref, nat), n: nat): seq<(Ref, nat)>
    requires i < |t.ws|
  {
    if n == 0 then []
    else ExpandNode(t, i, u, n - 1)
         + (if Child(t.pool, u.0, n - 1) != Null then [(Child(t.pool, u.0, n - 1), Join(t.ws, i, u.1, n - 1))] else [])
  }

  function ExpandLevel(t: Tree, i: nat, front: seq<(Ref, nat)>): seq<(Ref, nat)>
    requires i < |t.ws|
  {
    if front == [] then []
    else ExpandLevel(t, i, front[..|front| - 1]) + ExpandNode(t, i, front[|front| - 1], Pow2(t.ws[i]))
  }

  /** What the collection holds when it reaches level `i`. */
  function Frontier(t: Tree, i: nat): seq<(Ref, nat)>
    requires i <= |t.ws|
  {
    if i == 0 then [(t.root, 0)] else ExpandLevel(t, i - 1, Frontier(t, i - 1))
  }

  lemma {:induction false} NodeListing(t: Tree, i: nat, c: nat, n: nat)
    requires i < |t.ws| && n <= Pow2(t.ws[i])
    ensures Listing(t, i + 1, Join(t.ws, i, c, n)) == Listing(t, i + 1, Join(t.ws, i, c, 0)) + ExpandNode(t, i, (At(t, i, c), c), n)
  {
    if n > 0 {
      NodeListing(t, i, c, n - 1);
      AtChild(t, i, c, n - 1);
      assert Join(t.ws, i, c, n) == Join(t.ws, i, c, n - 1) + 1;
    }
  }

  lemma {:induction false} BarrenExpand(t: Tree, i: nat, c: nat, n: nat)
    requires i < |t.ws|
    ensures ExpandNode(t, i, (Null, c), n) == []
  {
    if n > 0 {
      BarrenExpand(t, i, c, n - 1);
    }
  }

  lemma {:induction false} JoinNext(ws: seq<nat>, i: nat, c: nat)
    requires i < |ws|
    ensures Join(ws, i, c, Pow2(ws[i])) == Join(ws, i, c + 1, 0)
    ensures Join(ws, i, 0, 0) == 0 && Join(ws, i, Pow2(Pre(ws, i)), 0) == Pow2(Pre(ws, i + 1))
  {
    assert (c + 1) * Pow2(ws[i]) == c * Pow2(ws[i]) + Pow2(ws[i]);
    Pow2Add(Pre(ws, i), ws[i]);
  }

  lemma {:induction false} ExpandLast(t: Tree, i: nat, front: seq<(Ref, nat)>, u: (Ref, nat))
    requires i < |t.ws|
    ensures ExpandLevel(t, i, front + [u]) == ExpandLevel(t, i, front) + ExpandNode(t, i, u, Pow2(t.ws[i]))
  {
    assert (front + [u])[..|front|] == front;
  }

  lemma {:induction false} LevelStep(t: Tree, i: nat, c: nat, lo: nat, up: nat)
    requires i < |t.ws| && ExpandLevel(t, i, Listing(t, i, c)) == Listing(t, i + 1, lo)
    requires Listing(t, i + 1, up) == Listing(t, i + 1, lo) + ExpandNode(t, i, (At(t, i, c), c), Pow2(t.ws[i]))
    ensures ExpandLevel(t, i, Listing(t, i, c + 1)) == Listing(t, i + 1, up)
  {
    if At(t, i, c) != Null {
      ExpandLast(t, i, Listing(t, i, c), (At(t, i, c), c));
    } else {
      BarrenExpand(t, i, c, Pow2(t.ws[i]));
      assert Listing(t, i, c) + [] == Listing(t, i, c);
      assert Listing(t, i + 1, lo) + [] == Listing(t, i + 1, lo);
    }
  }

  lemma {:induction false} LevelListing(t: Tree, i: nat, hi: nat)
    requires i < |t.ws|
    ensures ExpandLevel(t, i, Listing(t, i, hi)) == Listing(t, i + 1, Join(t.ws, i, hi, 0))
  {
    JoinNext(t.ws, i, 0);
    if hi > 0 {
      var c := hi - 1;
      LevelListing(t, i, c);
      NodeListing(t, i, c, Pow2(t.ws[i]));
      JoinNext(t.ws, i, c);
      LevelStep(t, i, c, Join(t.ws, i, c, 0), Join(t.ws, i, hi, 0));
    }
  }

  lemma {:induction false} FrontierStep(t: Tree, i: nat, hi: nat, hi': nat)
    requires i < |t.ws| && Frontier(t, i) == Listing(t, i, hi) && hi' == Join(t.ws, i, hi, 0)
    ensures Frontier(t, i + 1) == Listing(t, i + 1, hi')
  {
    LevelListing(t, i, hi);
  }

  lemma {:induction false} RootListing(t: Tree)
    requires t.root != Null
    ensures Listing(t, 0, 1) == [(t.root, 0)]
  {
    assert Listing(t, 0, 0) == [];
  }

  lemma {:induction false} LevelWidth(ws: seq<nat>, i: nat)
    requires i < |ws|
    ensures Pow2(Pre(ws, i + 1)) == Join(ws, i, Pow2(Pre(ws, i)), 0)
  {
    Pow2Add(Pre(ws, i), ws[i]);
  }

  /** Level by level the collection finds everything there is, in ascending order of prefix. */
  lemma {:induction false} FrontierIsListing(t: Tree, i: nat)
    requires i <= |t.ws| && t.root != Null
    ensures Frontier(t, i) == Listing(t, i, Pow2(Pre(t.ws, i)))
  {
    if i == 0 {
      RootListing(t);
      assert Pow2(Pre(t.ws, 0)) == 1;
    } else {
      FrontierIsListing(t, i - 1);
      LevelWidth(t.ws, i - 1);
      FrontierStep(t, i - 1, Pow2(Pre(t.ws, i - 1)), Pow2(Pre(t.ws, i)));
    }
  }

  lemma {:induction false} ListingEntries(t: Tree, i: nat, hi: nat, k: nat)
    requires i <= |t.ws| && k < |Listing(t, i, hi)|
    ensures Listing(t, i, hi)[k].0 == At(t, i, Listing(t, i, hi)[k].1) && Listing(t, i, hi)[k].0 != Null
  {
    if hi > 0 && k < |Listing(t, i, hi - 1)| {
      ListingEntries(t, i, hi - 1, k);
    }
  }

  /** Above the leaves the collection holds nodes of the width of their level. */
  lemma {:induction false} FrontierNodes(t: Tree, spot: Spots, leaves: Leaves, x: nat, i: nat)
    requires TreeOk(t, spot, leaves, x, 0) && i < |t.ws|
    ensures NodesOfWidth(t.pool, Frontier(t, i), Pow2(t.ws[i]))
  {
    FrontierIsListing(t, i);
    var front := Frontier(t, i);
    forall k | 0 <= k < |front| ensures IsNodeOfWidth(t.pool, front[k].0, Pow2(t.ws[i])) {
      ListingEntries(t, i, Pow2(Pre(t.ws, i)), k);
      assert SpotOk(t, spot, leaves, x, 0, i, front[k].1);
    }
  }

  predicate IsNodeOfWidth(pool: seq<Children>, r: Ref, n: nat) {
    r.NodeAt? && r.a < |pool| && |pool[r.a]| == n
  }

  predicate NodesOfWidth(pool: seq<Children>, front: seq<(Ref, nat)>, n: nat) {
    forall k | 0 <= k < |front| :: IsNodeOfWidth(pool, front[k].0, n)
  }

  ghost predicate LevelReadable(t: Tree, i: nat)
    requires i < |t.ws|
  {
    NodesOfWidth(t.pool, Frontier(t, i), Pow2(t.ws[i]))
  }

  ghost predicate Readable(t: Tree) {
    forall i {:trigger LevelReadable(t, i)} | 0 <= i < |t.ws| :: LevelReadable(t, i)
  }

  lemma {:induction false} FrontierReadable(t: Tree, spot: Spots, leaves: Leaves, x: nat)
    requires TreeOk(t, spot, leaves, x, 0)
    ensures Readable(t)
  {
    forall i | 0 <= i < |t.ws| ensures LevelReadable(t, i) {
      FrontierNodes(t, spot, leaves, x, i);
    }
  }

  /** At the leaves it holds what the keys map to. */
  lemma {:induction false} FrontierLeaves(t: Tree, i: nat)
    requires i <= |t.ws| && t.root != Null
    ensures forall k | 0 <= k < |Frontier(t, i)| :: Frontier(t, i)[k].0 != Null
  {
    FrontierIsListing(t, i);
    forall k | 0 <= k < |Frontier(t, i)| ensures Frontier(t, i)[k].0 != Null {
      ListingEntries(t, i, Pow2(Pre(t.ws, i)), k);
    }
  }

  // ----- Rebuilding -----

  /** The leaves of a tree built from a list of entries; an entry whose slot is taken is dropped. */
  function Rebuilt(ws: seq<nat>, entries: seq<(Ref, nat)>): Leaves {
    if entries == [] then map[]
    else
      var m := Rebuilt(ws, entries[..|entries| - 1]);
      var (r, c) := entries[|entries| - 1];
      if Key(ws, c) in m then m else m[Key(ws, c) := r]
  }

  function Restrict(leaves: Leaves, hi: nat): Leaves {
    map c | c in leaves && c < hi :: leaves[c]
  }

  lemma {:induction false} RestrictNext(leaves: Leaves, c: nat)
    ensures Restrict(leaves, c + 1) == if c in leaves then Restrict(leaves, c)[c := leaves[c]] else Restrict(leaves, c)
    ensures c !in Restrict(leaves, c)
  {
  }

  lemma {:induction false} RebuiltLast(ws: seq<nat>, entries: seq<(Ref, nat)>, r: Ref, c: nat)
    ensures Rebuilt(ws, entries + [(r, c)])
            == if Key(ws, c) in Rebuilt(ws, entries) then Rebuilt(ws, entries) else Rebuilt(ws, entries)[Key(ws, c) := r]
  {
    assert (entries + [(r, c)])[..|entries|] == entries;
  }

  lemma {:induction false} RebuiltNext(ws: seq<nat>, entries: seq<(Ref, nat)>, leaves: Leaves, r: Ref, c: nat)
    requires Rebuilt(ws, entries) == Restrict(leaves, c) && Key(ws, c) == c && c in leaves && leaves[c] == r
    ensures Rebuilt(ws, entries + [(r, c)]) == Restrict(leaves, c + 1)
  {
    RestrictNext(leaves, c);
    RebuiltLast(ws, entries, r, c);
  }

  lemma {:induction false} LeafAt(t: Tree, spot: Spots, leaves: Leaves, x: nat, c: nat)
    requires TreeOk(t, spot, leaves, x, 0) && c < Pow2(Total(t.ws))
    ensures At(t, |t.ws|, c) == if c in leaves then leaves[c] else Null
    ensures c in leaves ==> leaves[c] != Null
  {
    KeyPrefix(t.ws, c);
    LookupIsMap(t, spot, leaves, x, 0, c);
  }

  lemma {:induction false} RebuiltStep(t: Tree, n: nat, leaves: Leaves, ws: seq<nat>, c: nat)
    requires n <= |t.ws| && At(t, n, c) == (if c in leaves then leaves[c] else Null) && (c in leaves ==> leaves[c] != Null)
    requires Rebuilt(ws, Listing(t, n, c)) == Restrict(leaves, c) && Key(ws, c) == c
    ensures Rebuilt(ws, Listing(t, n, c + 1)) == Restrict(leaves, c + 1)
  {
    if c in leaves {
      RebuiltNext(ws, Listing(t, n, c), leaves, leaves[c], c);
    } else {
      RestrictNext(leaves, c);
      assert Listing(t, n, c) + [] == Listing(t, n, c);
    }
  }

  lemma {:induction false} RebuiltListing(t: Tree, spot: Spots, leaves: Leaves, x: nat, ws: seq<nat>, hi: nat)
    requires TreeOk(t, spot, leaves, x, 0) && Total(ws) == Total(t.ws) && hi <= Pow2(Total(ws))
    ensures Rebuilt(ws, Listing(t, |t.ws|, hi)) == Restrict(leaves, hi)
  {
    if hi > 0 {
      RebuiltListing(t, spot, leaves, x, ws, hi - 1);
      RebuiltOne(t, spot, leaves, x, ws, hi - 1, hi);
    }
  }

  lemma {:induction false} RebuiltOne(t: Tree, spot: Spots, leaves: Leaves, x: nat, ws: seq<nat>, c: nat, hi: nat)
    requires TreeOk(t, spot, leaves, x, 0) && Total(ws) == Total(t.ws) && hi == c + 1 && hi <= Pow2(Total(ws))
    requires Rebuilt(ws, Listing(t, |t.ws|, c)) == Restrict(leaves, c)
    ensures Rebuilt(ws, Listing(t, |t.ws|, hi)) == Restrict(leaves, hi)
  {
    KeyPrefix(ws, c);
    LeafAt(t, spot, leaves, x, c);
    RebuiltStep(t, |t.ws|, leaves, ws, c);
  }

  /** Collecting a tree and rebuilding it with other widths of the same total keeps every leaf. */
  lemma {:induction false} RebuiltFrontier(t: Tree, spot: Spots, leaves: Leaves, x: nat, ws: seq<nat>)
    requires TreeOk(t, spot, leaves, x, 0) && Total(ws) == Total(t.ws)
    ensures Rebuilt(ws, Frontier(t, |t.ws|)) == leaves
  {
    FrontierIsListing(t, |t.ws|);
    RebuiltListing(t, spot, leaves, x, ws, Pow2(Total(ws)));
    assert Restrict(leaves, Pow2(Total(ws))) == leaves;
  }

  /** Entries for given ids, in front of them the seed the collection starts from. */
  function Seeded(leaves: Leaves, root: Ref, ws: seq<nat>, ids: seq<nat>): seq<(Ref, nat)>
    requires forall u | u in ids :: Key(ws, u) in leaves
  {
    if ids == [] then [(root, 0)]
    else Seeded(leaves, root, ws, ids[..|ids| - 1]) + [(leaves[Key(ws, ids[|ids| - 1])], ids[|ids| - 1])]
  }

  lemma {:induction false} SeededNonNull(leaves: Leaves, root: Ref, ws: seq<nat>, ids: seq<nat>)
    requires root != Null && forall c | c in leaves :: leaves[c] != Null
    requires forall u | u in ids :: Key(ws, u) in leaves
    ensures forall k | 0 <= k < |Seeded(leaves, root, ws, ids)| :: Seeded(leaves, root, ws, ids)[k].0 != Null
  {
    if ids != [] {
      SeededNonNull(leaves, root, ws, ids[..|ids| - 1]);
    }
  }

  lemma {:induction false} RebuiltSeeded(leaves: Leaves, root: Ref, ws: seq<nat>, ws': seq<nat>, ids: seq<nat>)
    requires Total(ws) == Total(ws') && forall u | u in ids :: Key(ws, u) in leaves
    ensures var m := Rebuilt(ws', Seeded(leaves, root, ws, ids));
            && 0 in m && m[0] == root
            && (forall c | c in m && c != 0 :: c in leaves && m[c] == leaves[c])
            && (forall u | u in ids :: Key(ws, u) in m)
  {
    ModShrinks(0, Pow2(Total(ws)));
    var entries := Seeded(leaves, root, ws, ids);
    if ids == [] {
      assert entries[..0] == [];
      assert Rebuilt(ws', entries[..0]) == map[];
    } else {
      var init, u := ids[..|ids| - 1], ids[|ids| - 1];
      RebuiltSeeded(leaves, root, ws, ws', init);
      RebuiltLast(ws', Seeded(leaves, root, ws, init), leaves[Key(ws, u)], u);
      assert forall v | v in ids :: v in init || v == u;
    }
  }

  /** Rebuilding from exactly the stored ids keeps every leaf except at key 0, where the seed puts the old root. */
  lemma {:induction false} SeedTakesKeyZero(leaves: Leaves, root: Ref, ws: seq<nat>, ws': seq<nat>, ids: seq<nat>)
    requires Total(ws) == Total(ws') && forall u | u in ids :: Key(ws, u) in leaves
    requires forall c | c in leaves :: exists u :: u in ids && Key(ws, u) == c
    ensures Rebuilt(ws', Seeded(leaves, root, ws, ids)) == leaves[0 := root]
  {
    RebuiltSeeded(leaves, root, ws, ws', ids);
    var m := Rebuilt(ws', Seeded(leaves, root, ws, ids));
    forall c | c in leaves ensures c in m {
      var u :| u in ids && Key(ws, u) == c;
    }
  }

  /** Lookups after a rebuild: all as before, except that with a seed key 0 finds the old root, which was no leaf. */
  lemma {:induction false} LookupsKept(t: Tree, spot: Spots, leaves: Leaves, t': Tree, spot': Spots, seeded: bool, id: nat)
    requires TreeOk(t, spot, leaves, 0, 0) && TreeOk(t', spot', if seeded then leaves[0 := t.root] else leaves, 0, 0)
    requires Total(t'.ws) == Total(t.ws) && forall c | c in leaves :: leaves[c].VertexAt?
    ensures Lookup(t', id) == if seeded && Key(t.ws, id) == 0 then t.root else Lookup(t, id)
    ensures Lookup(t, id) != t.root
  {
    LookupIsMap(t, spot, leaves, 0, 0, id);
    LookupIsMap(t', spot', if seeded then leaves[0 := t.root] else leaves, 0, 0, id);
  }

  // ----- Size -----

  /** Slots of the subtree below a node of level `i`. */
  function SubtreeSlots(t: Tree, i: nat, r: Ref): nat
    requires i < |t.ws|
    decreases |t.ws| - i, 1, 0
  {
    Pow2(t.ws[i]) + (if i + 1 < |t.ws| then ChildrenSlots(t, i, r, Pow2(t.ws[i])) else 0)
  }

  /** Slots below the first `n` children. */
  function ChildrenSlots(t: Tree, i: nat, r: Ref, n: nat): nat
    requires i + 1 < |t.ws|
    decreases |t.ws| - i, 0, n
  {
    if n == 0 then 0
    else ChildrenSlots(t, i, r, n - 1)
         + (if Child(t.pool, r, n - 1) != Null then SubtreeSlots(t, i + 1, Child(t.pool, r, n - 1)) else 0)
  }

  function ListSlots(t: Tree, i: nat, front: seq<(Ref, nat)>): nat
    requires i < |t.ws|
  {
    if front == [] then 0
    else ListSlots(t, i, front[..|front| - 1]) + SubtreeSlots(t, i, front[|front| - 1].0)
  }

  /** Distinct prefixes times width, summed over the levels from `i` down. */
  function Slots(ws: seq<nat>, leaves: Leaves, i: nat): nat
    requires i <= |ws|
    decreases |ws| - i
  {
    if i == |ws| then 0 else |Prefixes(ws, leaves, i)| * Pow2(ws[i]) + Slots(ws, leaves, i + 1)
  }

  lemma {:induction false} ListSlotsConcat(t: Tree, i: nat, a: seq<(Ref, nat)>, b: seq<(Ref, nat)>)
    requires i < |t.ws|
    ensures ListSlots(t, i, a + b) == ListSlots(t, i, a) + ListSlots(t, i, b)
  {
    if b == [] {
      assert a + b == a;
    } else {
      assert (a + b)[..|a + b| - 1] == a + b[..|b| - 1];
      ListSlotsConcat(t, i, a, b[..|b| - 1]);
    }
  }

  lemma {:induction false} ExpandNodeSlots(t: Tree, i: nat, u: (Ref, nat), n: nat)
    requires i + 1 < |t.ws|
    ensures ListSlots(t, i + 1, ExpandNode(t, i, u, n)) == ChildrenSlots(t, i, u.0, n)
  {
    if n > 0 {
      ExpandNodeSlots(t, i, u, n - 1);
      var r := Child(t.pool, u.0, n - 1);
      if r != Null {
        var e := [(r, Join(t.ws, i, u.1, n - 1))];
        ListSlotsConcat(t, i + 1, ExpandNode(t, i, u, n - 1), e);
        assert ListSlots(t, i + 1, e) == SubtreeSlots(t, i + 1, r) by { assert e[..0] == []; }
      } else {
        assert ExpandNode(t, i, u, n - 1) + [] == ExpandNode(t, i, u, n - 1);
      }
    }
  }

  /** A level holds its own slots and those of the next level. */
  lemma {:induction false} LevelSlots(t: Tree, i: nat, front: seq<(Ref, nat)>)
    requires i < |t.ws|
    ensures ListSlots(t, i, front)
            == |front| * Pow2(t.ws[i]) + (if i + 1 < |t.ws| then ListSlots(t, i + 1, ExpandLevel(t, i, front)) else 0)
  {
    if front != [] {
      var rest, u := front[..|front| - 1], front[|front| - 1];
      LevelSlots(t, i, rest);
      assert |front| * Pow2(t.ws[i]) == |rest| * Pow2(t.ws[i]) + Pow2(t.ws[i]);
      if i + 1 < |t.ws| {
        ListSlotsConcat(t, i + 1, ExpandLevel(t, i, rest), ExpandNode(t, i, u, Pow2(t.ws[i])));
        ExpandNodeSlots(t, i, u, Pow2(t.ws[i]));
      }
    }
  }

  function Below(s: set<nat>, hi: nat): set<nat> {
    set c | c in s && c < hi
  }

  /** One node for each distinct prefix. */
  lemma {:induction false} ListingCount(t: Tree, spot: Spots, leaves: Leaves, x: nat, i: nat, hi: nat)
    requires TreeOk(t, spot, leaves, x, 0) && leaves != map[] && i <= |t.ws|
    ensures |Listing(t, i, hi)| == |Below(Prefixes(t.ws, leaves, i), hi)|
  {
    var below := Below(Prefixes(t.ws, leaves, i), hi);
    if hi == 0 {
      assert below == {};
    } else {
      var c := hi - 1;
      ListingCount(t, spot, leaves, x, i, c);
      var fewer := Below(Prefixes(t.ws, leaves, i), c);
      assert SpotOk(t, spot, leaves, x, 0, i, c);
      PrefixEnds(t.ws, x);
      if i == 0 {
        var z :| z in leaves;
        PrefixEnds(t.ws, z);
      }
      if c in Prefixes(t.ws, leaves, i) {
        assert below == fewer + {c};
      } else {
        assert below == fewer;
      }
    }
  }

  lemma {:induction false} FrontierCount(t: Tree, spot: Spots, leaves: Leaves, x: nat, i: nat)
    requires TreeOk(t, spot, leaves, x, 0) && leaves != map[] && i <= |t.ws|
    ensures |Frontier(t, i)| == |Prefixes(t.ws, leaves, i)|
  {
    FrontierIsListing(t, i);
    var hi := Pow2(Pre(t.ws, i));
    ListingCount(t, spot, leaves, x, i, hi);
    forall c | c in Prefixes(t.ws, leaves, i) ensures c < hi {
      var z :| z in leaves && Prefix(t.ws, i, z) == c;
      PrefixBound(t.ws, i, z);
    }
    assert Below(Prefixes(t.ws, leaves, i), hi) == Prefixes(t.ws, leaves, i);
  }

  lemma {:induction false} PrefixBound(ws: seq<nat>, i: nat, x: nat)
    requires i <= |ws|
    ensures Prefix(ws, i, x) < Pow2(Pre(ws, i))
  {
    DigitsFit(ws, x);
    CodeOfDigits(ws, x, i);
    CodeBound(ws, Digits(ws, x), i);
  }

  /** The closed form of the tree size. */
  lemma {:induction false} SlotsByPrefix(t: Tree, spot: Spots, leaves: Leaves, x: nat, i: nat)
    requires TreeOk(t, spot, leaves, x, 0) && leaves != map[] && i < |t.ws|
    ensures ListSlots(t, i, Frontier(t, i)) == Slots(t.ws, leaves, i)
    decreases |t.ws| - i
  {
    LevelSlots(t, i, Frontier(t, i));
    FrontierCount(t, spot, leaves, x, i);
    if i + 1 < |t.ws| {
      SlotsByPrefix(t, spot, leaves, x, i + 1);
    }
  }

  // ----- The queue of the size traversal -----

  /** A node of level `d`. */
  ghost predicate InTree(t: Tree, u: Ref, d: nat) {
    d < |t.ws| && u != Null && exists c: nat :: At(t, d, c) == u
  }

  lemma {:induction false} InTreeNode(t: Tree, spot: Spots, leaves: Leaves, x: nat, u: Ref, d: nat)
    requires TreeOk(t, spot, leaves, x, 0) && InTree(t, u, d)
    ensures IsNodeOfWidth(t.pool, u, Pow2(t.ws[d]))
  {
    var c: nat :| At(t, d, c) == u;
    assert SpotOk(t, spot, leaves, x, 0, d, c);
  }

  lemma {:induction false} InTreeChild(t: Tree, u: Ref, d: nat, j: nat)
    requires InTree(t, u, d) && d + 1 < |t.ws| && j < Pow2(t.ws[d]) && Child(t.pool, u, j) != Null
    ensures InTree(t, Child(t.pool, u, j), d + 1)
  {
    var c: nat :| At(t, d, c) == u;
    AtChild(t, d, c, j);
  }

  ghost predicate Queued(t: Tree, q: seq<(Ref, nat)>) {
    forall k {:trigger q[k]} | 0 <= k < |q| :: InTree(t, q[k].0, q[k].1)
  }

  /** Slots below everything in the queue. */
  ghost function QueueSlots(t: Tree, q: seq<(Ref, nat)>): nat {
    if q == [] then 0
    else
      var last := q[|q| - 1];
      QueueSlots(t, q[..|q| - 1]) + (if last.1 < |t.ws| then SubtreeSlots(t, last.1, last.0) else 0)
  }

  lemma {:induction false} QueueFront(t: Tree, q: seq<(Ref, nat)>)
    requires q != [] && q[0].1 < |t.ws|
    ensures QueueSlots(t, q) == SubtreeSlots(t, q[0].1, q[0].0) + QueueSlots(t, q[1..])
  {
    if |q| == 1 {
      assert q[..0] == [] && q[1..] == [];
    } else {
      QueueFront(t, q[..|q| - 1]);
      assert q[1..][..|q[1..]| - 1] == q[..|q| - 1][1..];
    }
  }

  lemma {:induction false} QueuePush(t: Tree, q: seq<(Ref, nat)>, u: Ref, d: nat)
    requires d < |t.ws|
    ensures QueueSlots(t, q + [(u, d)]) == QueueSlots(t, q) + SubtreeSlots(t, d, u)
  {
    assert (q + [(u, d)])[..|q|] == q;
  }

  /** A tree without leaves is its root. */
  lemma {:induction false} RootSlots(t: Tree, spot: Spots, x: nat)
    requires TreeOk(t, spot, map[], x, 0)
    ensures SubtreeSlots(t, 0, t.root) == Pow2(t.ws[0])
  {
    if |t.ws| > 1 {
      NoChildren(t, spot, x, Pow2(t.ws[0]));
    }
  }

  lemma {:induction false} NoChildren(t: Tree, spot: Spots, x: nat, n: nat)
    requires TreeOk(t, spot, map[], x, 0) && |t.ws| > 1 && n <= Pow2(t.ws[0])
    ensures ChildrenSlots(t, 0, t.root, n) == 0
  {
    if n > 0 {
      NoChildren(t, spot, x, n - 1);
      AtChild(t, 0, 0, n - 1);
      assert SpotOk(t, spot, map[], x, 0, 1, Join(t.ws, 0, 0, n - 1));
    }
  }

  /** The whole tree in closed form. */
  lemma {:induction false} TreeSlots(t: Tree, spot: Spots, leaves: Leaves, x: nat)
    requires TreeOk(t, spot, leaves, x, 0) && leaves != map[]
    ensures SubtreeSlots(t, 0, t.root) == Slots(t.ws, leaves, 0)
  {
    SlotsByPrefix(t, spot, leaves, x, 0);
    var front := Frontier(t, 0);
    assert front[..0] == [];
    assert ListSlots(t, 0, front) == ListSlots(t, 0, front[..0]) + SubtreeSlots(t, 0, t.root);
  }

  // ----- The heap shape alone -----

  lemma {:induction false} LinkKeepsRooted(t: Tree, t': Tree, spot: Spots, i: nat, c: nat, j: nat, a: nat)
    requires Rooted(t, spot) && Filled(t, t', i, c, j, NodeAt(a)) && i + 1 < |t.ws|
    requires |t'.pool| == |t.pool| && a < |t.pool| && |t'.pool[a]| == Pow2(t.ws[i + 1]) && a !in spot
    ensures Rooted(t', spot[a := (i + 1, Join(t.ws, i, c, j))])
  {
    var spot' := spot[a := (i + 1, Join(t.ws, i, c, j))];
    forall i', c' | 0 <= i' <= |t.ws| && 0 <= c' ensures NodeOk(t', spot', i', c') {
      assert NodeOk(t, spot, i', c');
      AtAfterPut(t, t', spot, i, c, j, NodeAt(a), i', c');
      WidthKept(t, t', i, c, j, NodeAt(a), At(t, i', c'));
    }
  }

  lemma {:induction false} LeafKeepsRooted(t: Tree, t': Tree, spot: Spots, i: nat, c: nat, j: nat, r: Ref)
    requires Rooted(t, spot) && Filled(t, t', i, c, j, r) && i + 1 == |t.ws|
    ensures Rooted(t', spot)
  {
    forall i', c' | 0 <= i' <= |t.ws| && 0 <= c' ensures NodeOk(t', spot, i', c') {
      assert NodeOk(t, spot, i', c');
      AtAfterPut(t, t', spot, i, c, j, r, i', c');
      WidthKept(t, t', i, c, j, r, At(t, i', c'));
    }
  }

  /** A node nobody can reach changes nothing. */
  lemma {:induction false} AllocKeepsAt(t: Tree, t': Tree, spot: Spots, kids: Children, i: nat, c: nat)
    requires Rooted(t, spot) && t' == t.(pool := t.pool + [kids]) && i <= |t.ws|
    ensures At(t', i, c) == At(t, i, c)
  {
    if i > 0 {
      var q := Quotient(c, Pow2(t.ws[i - 1]));
      AllocKeepsAt(t, t', spot, kids, i - 1, q);
      assert NodeOk(t, spot, i - 1, q);
    }
  }
}
