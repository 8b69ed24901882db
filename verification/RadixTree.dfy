/** SORT, the space-optimized radix tree, run by one thread: inserting and looking up vertices, changing the widths,
    counting its slots.

    Nodes are child arrays in a growing pool and `Ref` is an address. Per-slot locks play no part with one thread;
    ConcurrentTree models them. */
module RadixTree {
  import opened MixedRadix
  import opened Trie

  /** The fields of a vertex the tree maintains. */
  datatype Vertex = Vertex(node: nat, idx: nat)

  const NO_ID: nat := 0xFFFF_FFFF

  // ----- What the tree represents: the list of inserted ids, in order of insertion -----

  /** The vertex whose id has the same key as `id`. */
  function Find(ws: seq<nat>, ids: seq<nat>, id: nat): Ref {
    if ids == [] then Null
    else if Key(ws, ids[|ids| - 1]) == Key(ws, id) then VertexAt(|ids| - 1)
    else Find(ws, ids[..|ids| - 1], id)
  }

  /** The id is appended unless its key is taken. */
  function Added(ws: seq<nat>, ids: seq<nat>, id: nat): seq<nat> {
    if Find(ws, ids, id) == Null then ids + [id] else ids
  }

  ghost predicate DistinctKeys(ws: seq<nat>, ids: seq<nat>) {
    forall i, j | 0 <= i < j < |ids| :: Key(ws, ids[i]) != Key(ws, ids[j])
  }

  ghost function LeavesOf(ws: seq<nat>, ids: seq<nat>): Leaves {
    if ids == [] then map[]
    else LeavesOf(ws, ids[..|ids| - 1])[Key(ws, ids[|ids| - 1]) := VertexAt(|ids| - 1)]
  }

  lemma {:induction false} LeavesLookup(ws: seq<nat>, ids: seq<nat>, id: nat)
    ensures Find(ws, ids, id) == if Key(ws, id) in LeavesOf(ws, ids) then LeavesOf(ws, ids)[Key(ws, id)] else Null
    ensures Find(ws, ids, id) == Null || Find(ws, ids, id).VertexAt?
  {
    if ids != [] {
      LeavesLookup(ws, ids[..|ids| - 1], id);
    }
  }

  /** Which vertex an id finds: the one with its key, if any. */
  lemma {:induction false} FindMeaning(ws: seq<nat>, ids: seq<nat>, id: nat)
    ensures Find(ws, ids, id) == Null <==> forall v | 0 <= v < |ids| :: Key(ws, ids[v]) != Key(ws, id)
    ensures Find(ws, ids, id).VertexAt? ==>
              Find(ws, ids, id).v < |ids| && Key(ws, ids[Find(ws, ids, id).v]) == Key(ws, id)
    ensures Find(ws, ids, id) == Null || Find(ws, ids, id).VertexAt?
  {
    if ids != [] {
      var init := ids[..|ids| - 1];
      FindMeaning(ws, init, id);
      if Key(ws, ids[|ids| - 1]) != Key(ws, id) && Find(ws, init, id) == Null {
        forall v | 0 <= v < |ids| ensures Key(ws, ids[v]) != Key(ws, id) {
          assert v < |init| ==> ids[v] == init[v];
        }
      } else if Key(ws, ids[|ids| - 1]) == Key(ws, id) {
        assert !(forall v | 0 <= v < |ids| :: Key(ws, ids[v]) != Key(ws, id));
      } else {
        var v := Find(ws, init, id).v;
        assert ids[v] == init[v];
      }
    }
  }

  /** Ids below `2^total` find exactly their own vertex, whose position is its index: internal and external ids undo each
      other. */
  lemma {:induction false} IdsUndoEachOther(ws: seq<nat>, ids: seq<nat>, id: nat, v: nat)
    requires DistinctKeys(ws, ids)
    ensures v < |ids| ==> Find(ws, ids, ids[v]) == VertexAt(v)
    ensures (forall u | 0 <= u < |ids| :: ids[u] < Pow2(Total(ws))) && id < Pow2(Total(ws)) ==>
              (Find(ws, ids, id) != Null <==> id in ids)
    ensures (forall u | 0 <= u < |ids| :: ids[u] < Pow2(Total(ws))) && id < Pow2(Total(ws))
            && Find(ws, ids, id) == VertexAt(v) ==>
              v < |ids| && ids[v] == id
  {
    FindMeaning(ws, ids, id);
    if v < |ids| {
      FindMeaning(ws, ids, ids[v]);
    }
    if (forall u | 0 <= u < |ids| :: ids[u] < Pow2(Total(ws))) && id < Pow2(Total(ws)) {
      KeyPrefix(ws, id);
      forall u | 0 <= u < |ids| ensures Key(ws, ids[u]) == ids[u] {
        KeyPrefix(ws, ids[u]);
      }
    }
  }

  /** Once found, the same vertex is found for good, whatever is inserted later. */
  lemma {:induction false} FoundForGood(ws: seq<nat>, ids: seq<nat>, more: seq<nat>, id: nat)
    requires ids <= more && DistinctKeys(ws, more) && Find(ws, ids, id) != Null
    ensures Find(ws, more, id) == Find(ws, ids, id)
  {
    FindMeaning(ws, ids, id);
    FindMeaning(ws, more, id);
    var v := Find(ws, ids, id).v;
    assert more[v] == ids[v];
  }

  lemma {:induction false} AddedKeeps(ws: seq<nat>, ids: seq<nat>, id: nat)
    requires DistinctKeys(ws, ids)
    ensures DistinctKeys(ws, Added(ws, ids, id)) && Find(ws, Added(ws, ids, id), id) != Null && ids <= Added(ws, ids, id)
    ensures Key(ws, id) in LeavesOf(ws, Added(ws, ids, id))
  {
    FindMeaning(ws, ids, id);
    var more := Added(ws, ids, id);
    if Find(ws, ids, id) == Null {
      assert more[..|more| - 1] == ids;
    }
    LeavesLookup(ws, more, id);
  }

  /** The ids of a run of insertions, repeated keys dropped. */
  function InsertedBy(ws: seq<nat>, run: seq<nat>): seq<nat> {
    if run == [] then [] else Added(ws, InsertedBy(ws, run[..|run| - 1]), run[|run| - 1])
  }

  lemma {:induction false} InsertedGrows(ws: seq<nat>, run: seq<nat>, n: nat)
    requires n <= |run|
    ensures DistinctKeys(ws, InsertedBy(ws, run)) && InsertedBy(ws, run[..n]) <= InsertedBy(ws, run)
    decreases |run|
  {
    if run != [] {
      var init := run[..|run| - 1];
      InsertedGrows(ws, init, if n < |run| then n else |init|);
      AddedKeeps(ws, InsertedBy(ws, init), run[|run| - 1]);
      if n < |run| {
        assert init[..n] == run[..n];
      } else {
        assert run[..n] == run;
      }
    }
  }

  /** Some id of the run has the key of `id`. */
  ghost predicate KeyInserted(ws: seq<nat>, run: seq<nat>, id: nat) {
    exists k :: 0 <= k < |run| && Key(ws, run[k]) == Key(ws, id)
  }

  lemma {:induction false} KeyInsertedLast(ws: seq<nat>, run: seq<nat>, id: nat)
    requires run != []
    ensures KeyInserted(ws, run, id) <==>
            KeyInserted(ws, run[..|run| - 1], id) || Key(ws, run[|run| - 1]) == Key(ws, id)
  {
    var init := run[..|run| - 1];
    if KeyInserted(ws, run, id) {
      var k :| 0 <= k < |run| && Key(ws, run[k]) == Key(ws, id);
      assert k < |init| ==> init[k] == run[k];
    }
    if KeyInserted(ws, init, id) {
      var k :| 0 <= k < |init| && Key(ws, init[k]) == Key(ws, id);
      assert run[k] == init[k];
    }
  }

  lemma {:induction false} FindsInserted(ws: seq<nat>, run: seq<nat>, id: nat)
    ensures Find(ws, InsertedBy(ws, run), id) != Null <==> KeyInserted(ws, run, id)
  {
    if run != [] {
      FindsInserted(ws, run[..|run| - 1], id);
      KeyInsertedLast(ws, run, id);
      FindAfterAdd(ws, InsertedBy(ws, run[..|run| - 1]), run[|run| - 1], id);
    }
  }

  /** After any run of insertions exactly the keys inserted are found, each at one vertex, and nothing inserted later
      changes what an earlier lookup found. */
  lemma {:induction false} RunFindsInserted(ws: seq<nat>, run: seq<nat>, n: nat, id: nat)
    requires n <= |run|
    ensures DistinctKeys(ws, InsertedBy(ws, run)) && InsertedBy(ws, run[..n]) <= InsertedBy(ws, run)
    ensures Find(ws, InsertedBy(ws, run), id) != Null <==> KeyInserted(ws, run, id)
    ensures Find(ws, InsertedBy(ws, run[..n]), id) != Null ==>
              Find(ws, InsertedBy(ws, run), id) == Find(ws, InsertedBy(ws, run[..n]), id)
  {
    InsertedGrows(ws, run, n);
    FindsInserted(ws, run, id);
    if Find(ws, InsertedBy(ws, run[..n]), id) != Null {
      FoundForGood(ws, InsertedBy(ws, run[..n]), InsertedBy(ws, run), id);
    }
  }

  lemma {:induction false} FindAfterAdd(ws: seq<nat>, ids: seq<nat>, last: nat, id: nat)
    ensures Find(ws, Added(ws, ids, last), id) != Null <==> Find(ws, ids, id) != Null || Key(ws, last) == Key(ws, id)
  {
    FindMeaning(ws, ids, id);
    FindMeaning(ws, ids, last);
    if Find(ws, ids, last) == Null {
      assert (ids + [last])[..|ids|] == ids;
    }
  }

  /** Find depends on the total of the widths only. */
  lemma {:induction false} SameTotalSameFind(ws: seq<nat>, ws': seq<nat>, ids: seq<nat>, id: nat)
    requires Total(ws) == Total(ws')
    ensures Find(ws, ids, id) == Find(ws', ids, id) && LeavesOf(ws, ids) == LeavesOf(ws', ids)
  {
    if ids != [] {
      SameTotalSameFind(ws, ws', ids[..|ids| - 1], id);
    }
  }

  lemma {:induction false} LeavesBound(ws: seq<nat>, ids: seq<nat>)
    ensures forall c | c in LeavesOf(ws, ids) :: c < Pow2(Total(ws)) && LeavesOf(ws, ids)[c].VertexAt?
    ensures ids != [] ==> LeavesOf(ws, ids) != map[]
  {
    if ids != [] {
      LeavesBound(ws, ids[..|ids| - 1]);
      KeyOfKey(ws, ids[|ids| - 1]);
      assert Key(ws, ids[|ids| - 1]) in LeavesOf(ws, ids);
    }
  }

  /** The distinct prefixes of the inserted ids at level `i`. */
  ghost function PrefixSet(ws: seq<nat>, ids: seq<nat>, i: nat): set<nat>
    requires i <= |ws|
  {
    set v | 0 <= v < |ids| :: Prefix(ws, i, ids[v])
  }

  /** Distinct prefixes times width, summed over the levels from `i` down. */
  ghost function TreeSize(ws: seq<nat>, ids: seq<nat>, i: nat): nat
    requires i <= |ws|
    decreases |ws| - i
  {
    if i == |ws| then 0 else |PrefixSet(ws, ids, i)| * Pow2(ws[i]) + TreeSize(ws, ids, i + 1)
  }

  lemma {:induction false} PrefixSetOfLeaves(ws: seq<nat>, ids: seq<nat>, i: nat)
    requires i <= |ws|
    ensures PrefixSet(ws, ids, i) == Prefixes(ws, LeavesOf(ws, ids), i)
  {
    if ids == [] {
      assert PrefixSet(ws, ids, i) == {} && Prefixes(ws, LeavesOf(ws, ids), i) == {};
    } else {
      var init, u := ids[..|ids| - 1], ids[|ids| - 1];
      PrefixSetOfLeaves(ws, init, i);
      MorePrefixes(ws, LeavesOf(ws, init), i, Key(ws, u), VertexAt(|init|));
      PrefixOfKey(ws, i, u);
      PrefixSetLast(ws, ids, i);
    }
  }

  lemma {:induction false} PrefixSetLast(ws: seq<nat>, ids: seq<nat>, i: nat)
    requires i <= |ws| && ids != []
    ensures PrefixSet(ws, ids, i) == PrefixSet(ws, ids[..|ids| - 1], i) + {Prefix(ws, i, ids[|ids| - 1])}
  {
    var init := ids[..|ids| - 1];
    forall c | c in PrefixSet(ws, ids, i) ensures c in PrefixSet(ws, init, i) || c == Prefix(ws, i, ids[|ids| - 1]) {
      var v :| 0 <= v < |ids| && Prefix(ws, i, ids[v]) == c;
      assert v < |init| ==> init[v] == ids[v];
    }
    forall c | c in PrefixSet(ws, init, i) ensures c in PrefixSet(ws, ids, i) {
      var v :| 0 <= v < |init| && Prefix(ws, i, init[v]) == c;
      assert ids[v] == init[v];
    }
    assert Prefix(ws, i, ids[|ids| - 1]) in PrefixSet(ws, ids, i);
  }

  lemma {:induction false} TreeSizeIsSlots(ws: seq<nat>, ids: seq<nat>, i: nat)
    requires i <= |ws|
    ensures TreeSize(ws, ids, i) == Slots(ws, LeavesOf(ws, ids), i)
    decreases |ws| - i
  {
    if i < |ws| {
      PrefixSetOfLeaves(ws, ids, i);
      TreeSizeIsSlots(ws, ids, i + 1);
    }
  }

  // ----- The tree -----

  ghost function Contents(arrays: seq<array<Ref>>): (p: seq<Children>)
    reads arrays
    ensures |p| == |arrays| && forall a | 0 <= a < |arrays| :: p[a] == arrays[a][..]
  {
    seq(|arrays|, a requires 0 <= a < |arrays| reads arrays => arrays[a][..])
  }

  function IdsOf(table: seq<Vertex>): (ids: seq<nat>)
    ensures |ids| == |table| && forall v | 0 <= v < |table| :: ids[v] == table[v].node
  {
    seq(|table|, v requires 0 <= v < |table| => table[v].node)
  }

  /** Every lookup gives the same in both trees; if the rebuild was seeded, exactly the lookups at key 0 differ. */
  ghost predicate SameLookups(t: Tree, t': Tree, seeded: bool) {
    forall id: nat {:trigger Lookup(t', id)} :: Lookup(t', id) == Lookup(t, id) <==> !seeded || Key(t.ws, id) != 0
  }

  lemma {:induction false} LookupsPreserved(t: Tree, spot: Spots, leaves: Leaves, t': Tree, spot': Spots, seeded: bool)
    requires TreeOk(t, spot, leaves, 0, 0) && TreeOk(t', spot', if seeded then leaves[0 := t.root] else leaves, 0, 0)
    requires Total(t'.ws) == Total(t.ws) && forall c | c in leaves :: leaves[c].VertexAt?
    ensures SameLookups(t, t', seeded)
  {
    forall id: nat ensures Lookup(t', id) == Lookup(t, id) <==> !seeded || Key(t.ws, id) != 0 {
      LookupsKept(t, spot, leaves, t', spot', seeded, id);
    }
  }

  class Sort {
    var root: Ref
    var nodes: seq<array<Ref>>
    var table: seq<Vertex>
    var cnt: nat
    var numBits: seq<nat>
    var sumBits: seq<nat>
    var depth: nat
    ghost var repr: set<array<Ref>>
    ghost var spot: Spots
    ghost var leaves: Leaves

    ghost function Pool(): (p: seq<Children>)
      reads this`nodes, nodes
      ensures |p| == |nodes| && forall a | 0 <= a < |nodes| :: p[a] == nodes[a][..]
    {
      Contents(nodes)
    }

    ghost function T(): Tree
      reads this`nodes, this`root, this`numBits, nodes
    {
      Tree(Pool(), root, numBits)
    }

    function Ids(): seq<nat>
      reads this`table
    {
      IdsOf(table)
    }

    ghost predicate Layout()
      reads this
    {
      && depth == |numBits| == |sumBits|
      && (forall i | 0 <= i < depth :: sumBits[i] == Pre(numBits, i + 1))
    }

    ghost predicate Shape()
      reads this
    {
      && Layout() && Owned() && (root != Null ==> depth > 0)
      && cnt == |table| && (forall v | 0 <= v < |table| :: table[v].idx == v)
    }

    /** At rest: the tree holds exactly the inserted ids. */
    ghost predicate Valid()
      reads this, nodes
    {
      && Shape()
      && (if root == Null then table == [] && leaves == map[] else TreeOk(T(), spot, leaves, 0, 0))
      && leaves == LeavesOf(numBits, Ids()) && DistinctKeys(numBits, Ids())
    }

    /** What no insertion changes. */
    twostate predicate SameLayout()
      reads this
    {
      numBits == old(numBits) && sumBits == old(sumBits) && depth == old(depth)
    }

    /** The arrays of the pool, none twice. */
    ghost predicate Owned()
      reads this
    {
      && (forall a | 0 <= a < |nodes| :: nodes[a] in repr)
      && (forall a, b | 0 <= a < b < |nodes| :: nodes[a] != nodes[b])
    }

    constructor (widths: seq<nat>)
      ensures Valid() && Ids() == [] && numBits == NonZero(widths) && (depth > 0 <==> exists i | 0 <= i < |widths| :: widths[i] != 0)
    {
      NonZeroExists(widths);
      root, nodes, table, cnt := Null, [], [], 0;
      repr, spot, leaves := {}, map[], map[];
      numBits := NonZero(widths);
      depth := |NonZero(widths)|;
      sumBits := seq(|NonZero(widths)|, i requires 0 <= i < |NonZero(widths)| => Pre(NonZero(widths), i + 1));
      new;
    }

    /** The digit of `id` at level `i`, from the running sums. */
    function DigitOf(i: nat, id: nat): (j: nat)
      reads this
      requires Layout() && i < depth
      ensures j == Digit(numBits, i, id)
    {
      PreMonotone(numBits, i, depth);
      PreMonotone(numBits, i + 1, depth);
      var numNow := sumBits[depth - 1] - (if i > 0 then sumBits[i - 1] else 0);
      Quotient(Remainder(id, Pow2(numNow)), Pow2(sumBits[depth - 1] - sumBits[i]))
    }

    method NewNode(w: nat) returns (a: nat)
      requires Owned()
      modifies this`nodes, this`repr
      ensures Owned() && fresh(repr - old(repr)) && repr >= old(repr)
      ensures a == old(|nodes|) && |nodes| == a + 1 && Pool() == old(Pool()) + [Nulls(Pow2(w))]
    {
      var sz := Pow2(w);
      var children := new Ref[sz](_ => Null);
      a := |nodes|;
      nodes := nodes + [children];
      repr := repr + {children};
      assert children[..] == Nulls(sz);
    }

    method SetChild(a: nat, j: nat, r: Ref)
      requires Owned() && a < |nodes| && j < nodes[a].Length
      modifies repr
      ensures a < |old(Pool())| && j < |old(Pool())[a]| && Pool() == Put(old(Pool()), a, j, r)
    {
      nodes[a][j] := r;
    }

    /** A new root with no children. */
    method NewRoot()
      requires Shape() && depth > 0
      modifies this`root, this`nodes, this`spot, this`leaves, this`repr
      ensures Shape() && fresh(repr - old(repr)) && root.NodeAt?
      ensures TreeOk(T(), spot, leaves, 0, 0) && leaves == map[]
    {
      var a := NewNode(numBits[0]);
      root := NodeAt(a);
      spot := map[a := (0, 0)];
      leaves := map[];
      EmptyTree(T(), spot, 0);
    }

    /** Where a walk for `id` stands after `i` levels. */
    ghost predicate Walking(id: nat, i: nat, current: Ref)
      reads this, nodes
    {
      Shape() && i < depth && Standing(T(), spot, leaves, id, i, current)
    }

    method NewChild(a: nat, j: nat, w: nat)
      requires Owned() && a < |nodes| && j < nodes[a].Length
      modifies this`nodes, this`repr, repr
      ensures Owned() && fresh(repr - old(repr)) && |nodes| == old(|nodes|) + 1
      ensures a < |old(Pool())| && j < |old(Pool())[a]|
      ensures Pool() == Put(old(Pool()) + [Nulls(Pow2(w))], a, j, NodeAt(old(|nodes|)))
    {
      var n := NewNode(w);
      SetChild(a, j, NodeAt(n));
    }

    /** The missing inner node below `current`. */
    method CreateChild(id: nat, i: nat, current: Ref) returns (child: Ref)
      requires Walking(id, i, current) && i + 1 < depth && At(T(), i + 1, Prefix(numBits, i + 1, id)) == Null
      modifies this`nodes, this`spot, this`repr, repr
      ensures fresh(repr - old(repr)) && Walking(id, i + 1, child)
    {
      Slot(T(), spot, leaves, id, i, current);
      ghost var t := T();
      NewChild(current.a, DigitOf(i, id), numBits[i + 1]);
      LinkNode(t, T(), spot, leaves, id, i, current);
      child := NodeAt(|nodes| - 1);
      spot := spot[|nodes| - 1 := (i + 1, Prefix(numBits, i + 1, id))];
    }

    /** A new vertex: the counter gives its index and the table its address. */
    method NewVertex(id: nat) returns (v: Ref)
      requires cnt == |table|
      modifies this`table, this`cnt
      ensures v == VertexAt(old(|table|)) && table == old(table) + [Vertex(id, old(|table|))] && cnt == |table|
    {
      var i := cnt;
      cnt := cnt + 1;
      v := VertexAt(|table|);
      table := table + [Vertex(id, i)];
    }

    method ReadSlot(id: nat, i: nat, current: Ref) returns (child: Ref)
      requires Walking(id, i, current)
      ensures child == At(T(), i + 1, Prefix(numBits, i + 1, id))
    {
      Slot(T(), spot, leaves, id, i, current);
      child := nodes[current.a][DigitOf(i, id)];
    }

    /** One level down, creating the node if it is missing. */
    method StepInto(id: nat, i: nat, current: Ref) returns (child: Ref)
      requires Walking(id, i, current) && i + 1 < depth
      modifies this`nodes, this`spot, this`repr, repr
      ensures fresh(repr - old(repr)) && Walking(id, i + 1, child)
    {
      child := ReadSlot(id, i, current);
      if child == Null {
        child := CreateChild(id, i, current);
      } else {
        StepDown(T(), spot, leaves, id, i);
      }
    }

    /** Writes the free leaf slot of `id`. */
    method WriteLeaf(id: nat, i: nat, current: Ref, v: Ref)
      requires Walking(id, i, current) && i + 1 == depth && v != Null
      requires At(T(), i + 1, Prefix(numBits, i + 1, id)) == Null
      modifies this`leaves, repr
      ensures Shape() && TreeOk(T(), spot, leaves, id, i) && leaves == old(leaves)[Key(numBits, id) := v]
    {
      Slot(T(), spot, leaves, id, i, current);
      ghost var t := T();
      SetChild(current.a, DigitOf(i, id), v);
      LinkLeaf(t, T(), spot, leaves, id, i, current, v);
      leaves := leaves[Key(numBits, id) := v];
    }

    /** What a leaf slot holds is what the key maps to. */
    lemma {:induction false} LeafMeaning(id: nat, i: nat, current: Ref, child: Ref)
      requires Walking(id, i, current) && child == At(T(), i + 1, Prefix(numBits, i + 1, id))
      ensures child == Null ==> Key(numBits, id) !in leaves
      ensures child != Null && i + 1 == depth ==> Key(numBits, id) in leaves && leaves[Key(numBits, id)] == child
    {
      PrefixEnds(numBits, id);
      LookupIsMap(T(), spot, leaves, id, i, id);
      if child == Null {
        NullBelow(T(), spot, leaves, id, i, i + 1);
      }
    }

    /** From `start`, reached after `d` levels, creates whatever is missing on the path of `id`. */
    method InsertVertex(start: Ref, id: nat, d: nat) returns (v: Ref)
      requires Walking(id, d, start)
      modifies this`nodes, this`spot, this`table, this`cnt, this`leaves, this`repr, repr
      ensures Shape() && fresh(repr - old(repr)) && TreeOk(T(), spot, leaves, id, depth - 1)
      ensures if Key(numBits, id) in old(leaves) then
                table == old(table) && leaves == old(leaves) && v == leaves[Key(numBits, id)]
              else
                && table == old(table) + [Vertex(id, old(|table|))] && v == VertexAt(old(|table|))
                && leaves == old(leaves)[Key(numBits, id) := v]
    {
      ghost var was, vertices := leaves, table;
      var current := BuildPath(start, id, d);
      assert leaves == was && table == vertices;
      v := Claim(id, depth - 1, current);
    }

    /** Walks down to the last level, creating the missing nodes. */
    method BuildPath(start: Ref, id: nat, d: nat) returns (current: Ref)
      requires Walking(id, d, start)
      modifies this`nodes, this`spot, this`repr, repr
      ensures fresh(repr - old(repr)) && Walking(id, depth - 1, current)
    {
      current := start;
      for i := d to depth - 1
        invariant Walking(id, i, current) && fresh(repr - old(repr))
      {
        current := StepInto(id, i, current);
      }
    }

    /** The vertex in the leaf slot, created if the slot is free. */
    method Claim(id: nat, i: nat, current: Ref) returns (v: Ref)
      requires Walking(id, i, current) && i + 1 == depth
      modifies this`table, this`cnt, this`leaves, repr
      ensures Shape() && TreeOk(T(), spot, leaves, id, i)
      ensures if Key(numBits, id) in old(leaves) then
                table == old(table) && leaves == old(leaves) && v == leaves[Key(numBits, id)]
              else
                && table == old(table) + [Vertex(id, old(|table|))] && v == VertexAt(old(|table|))
                && leaves == old(leaves)[Key(numBits, id) := v]
    {
      v := ReadSlot(id, i, current);
      LeafMeaning(id, i, current, v);
      if v == Null {
        v := NewVertex(id);
        WriteLeaf(id, i, current, v);
      }
    }

    /** Follows the path of `id` as far as it exists. */
    method Descend(id: nat) returns (current: Ref, i: nat, child: Ref)
      requires Walking(id, 0, root)
      ensures Walking(id, i, current) && child == At(T(), i + 1, Prefix(numBits, i + 1, id))
      ensures child == Null || i + 1 == depth
    {
      current := root;
      i := 0;
      child := ReadSlot(id, i, current);
      while i < depth - 1 && child != Null
        invariant i < depth && Walking(id, i, current) && child == At(T(), i + 1, Prefix(numBits, i + 1, id))
      {
        StepDown(T(), spot, leaves, id, i);
        current := child;
        i := i + 1;
        child := ReadSlot(id, i, current);
      }
    }

    /** The root, created on first use. */
    method EnsureRoot()
      requires Valid() && depth > 0
      modifies this`root, this`nodes, this`spot, this`leaves, this`repr
      ensures Valid() && fresh(repr - old(repr)) && root.NodeAt?
    {
      if root == Null {
        NewRoot();
      }
    }

    lemma {:induction false} Begin(id: nat)
      requires Valid() && root.NodeAt?
      ensures Walking(id, 0, root)
    {
      Restart(T(), spot, leaves, 0, 0, id);
      PrefixEnds(numBits, id);
    }

    /** Finds the vertex of `id`, inserting it first if asked to; the root is created on first use either way, with the
        first level's width. */
    method RetrieveVertex(id: nat, insertMode: bool) returns (v: Ref)
      requires Valid() && depth > 0
      modifies this, repr
      ensures Valid() && fresh(repr - old(repr)) && SameLayout()
      ensures Ids() == if insertMode then Added(numBits, old(Ids()), id) else old(Ids())
      ensures v == Find(numBits, Ids(), id)
      ensures root.NodeAt?
    {
      EnsureRoot();
      Begin(id);
      var current, i;
      current, i, v := Descend(id);
      LeafMeaning(id, i, current, v);
      LeavesLookup(numBits, Ids(), id);
      if v == Null && insertMode {
        v := InsertNew(id, i, current);
      }
    }

    /** An insertion that finds the key free. */
    method InsertNew(id: nat, i: nat, current: Ref) returns (v: Ref)
      requires Walking(id, i, current) && Key(numBits, id) !in leaves && root.NodeAt?
      requires leaves == LeavesOf(numBits, Ids()) && DistinctKeys(numBits, Ids())
      modifies this`nodes, this`spot, this`table, this`cnt, this`leaves, this`repr, repr
      ensures Valid() && fresh(repr - old(repr)) && Ids() == Added(numBits, old(Ids()), id) && v == Find(numBits, Ids(), id)
    {
      ghost var ids := Ids();
      LeavesLookup(numBits, ids, id);
      AddedKeeps(numBits, ids, id);
      v := InsertVertex(current, id, i);
      assert Ids() == ids + [id];
      assert Ids()[..|ids|] == ids;
      Restart(T(), spot, leaves, id, depth - 1, 0);
    }

    /** The index of the vertex of an id, or -1. */
    method GetInternalID(id: nat) returns (i: int)
      requires Valid() && depth > 0
      modifies this, repr
      ensures Valid() && Ids() == old(Ids()) && SameLayout() && fresh(repr - old(repr))
      ensures i == (if Find(numBits, Ids(), id).VertexAt? then Find(numBits, Ids(), id).v else -1)
    {
      var v := RetrieveVertex(id, false);
      FindMeaning(numBits, Ids(), id);
      if v == Null {
        i := -1;
      } else {
        i := table[v.v].idx;
      }
    }

    /** The id of the vertex with an index; an index out of range gives the largest 32-bit id. */
    method GetExternalID(offset: nat) returns (id: nat)
      requires Valid()
      ensures id == if offset < |Ids()| then Ids()[offset] else NO_ID
    {
      if offset >= cnt {
        id := NO_ID;
      } else {
        id := table[offset].node;
      }
    }

    /** A node or leaf exists exactly for each prefix of an inserted id, and for the root. */
    lemma {:induction false} NodePerPrefix(i: nat, c: nat)
      requires Valid() && root != Null && i <= depth
      ensures At(T(), i, c) != Null <==> c in PrefixSet(numBits, Ids(), i) || (i == 0 && c == 0)
    {
      assert SpotOk(T(), spot, leaves, 0, 0, i, c);
      PrefixSetOfLeaves(numBits, Ids(), i);
      PrefixEnds(numBits, 0);
    }

    // ----- Changing the widths -----

    /** Appends the non-null children of one node to `next`. */
    method CollectNode(ghost t: Tree, i: nat, w: nat, u: (Ref, nat), next: seq<(Ref, nat)>) returns (next': seq<(Ref, nat)>)
      requires t.pool == Pool() && i < |t.ws| && w == t.ws[i] && IsNodeOfWidth(Pool(), u.0, Pow2(w))
      ensures next' == next + ExpandNode(t, i, u, Pow2(w))
    {
      next' := next;
      for j := 0 to Pow2(w)
        invariant next' == next + ExpandNode(t, i, u, j)
      {
        if nodes[u.0.a][j] != Null {
          next' := next' + [(nodes[u.0.a][j], u.1 * Pow2(w) + j)];
        }
      }
    }

    method CollectLevel(ghost t: Tree, i: nat, w: nat, frontiers: seq<(Ref, nat)>) returns (next: seq<(Ref, nat)>)
      requires t.pool == Pool() && i < |t.ws| && w == t.ws[i] && NodesOfWidth(Pool(), frontiers, Pow2(w))
      ensures next == ExpandLevel(t, i, frontiers)
    {
      next := [];
      for k := 0 to |frontiers|
        invariant next == ExpandLevel(t, i, frontiers[..k])
      {
        next := CollectNode(t, i, w, frontiers[k], next);
        assert frontiers[..k + 1] == frontiers[..k] + [frontiers[k]];
        ExpandLast(t, i, frontiers[..k], frontiers[k]);
      }
      assert frontiers[..|frontiers|] == frontiers;
    }

    /** The widths of the levels above `i` are new, the others old. */
    ghost predicate Switched(ws: seq<nat>, ws': seq<nat>, i: nat)
      reads this
    {
      && |numBits| == |sumBits| == |ws| == |ws'| == depth && i <= depth
      && (forall j | 0 <= j < i :: numBits[j] == ws'[j])
      && (forall j | i <= j < depth :: numBits[j] == ws[j])
      && (forall j | 0 <= j < i :: sumBits[j] == Pre(ws', j + 1))
    }

    method SwitchWidth(ghost ws: seq<nat>, ws': seq<nat>, i: nat)
      requires Switched(ws, ws', i) && i < depth
      modifies this`numBits, this`sumBits
      ensures Switched(ws, ws', i + 1)
    {
      numBits := numBits[i := ws'[i]];
      sumBits := sumBits[i := (if i > 0 then sumBits[i - 1] else 0) + numBits[i]];
    }

    lemma {:induction false} AllSwitched(ws: seq<nat>, ws': seq<nat>)
      requires Switched(ws, ws', depth)
      ensures Layout() && numBits == ws'
    {
      assert numBits == ws';
    }

    /** Reads level `i` and then changes its width. */
    method PassLevel(ghost t: Tree, newBits: seq<nat>, i: nat, frontiers: seq<(Ref, nat)>) returns (next: seq<(Ref, nat)>)
      requires i < |t.ws| && t.pool == Pool() && Switched(t.ws, newBits, i)
      requires frontiers == Frontier(t, i) && Readable(t)
      modifies this`numBits, this`sumBits
      ensures Switched(t.ws, newBits, i + 1) && next == Frontier(t, i + 1)
    {
      assert LevelReadable(t, i);
      next := CollectLevel(t, i, numBits[i], frontiers);
      SwitchWidth(t.ws, newBits, i);
    }

    /** Collects the leaves level by level, changing the width of each level once it has been read. */
    method Collect(ghost t: Tree, newBits: seq<nat>) returns (frontiers: seq<(Ref, nat)>)
      requires Layout() && t == T() && Readable(t) && |newBits| == depth
      modifies this`numBits, this`sumBits
      ensures Layout() && numBits == newBits && frontiers == Frontier(t, depth)
    {
      frontiers := [(root, 0)];
      for i := 0 to depth
        invariant Switched(t.ws, newBits, i) && frontiers == Frontier(t, i)
      {
        frontiers := PassLevel(t, newBits, i, frontiers);
      }
      AllSwitched(t.ws, newBits);
    }

    /** Follows the path of a stored id to its leaf. */
    method FindLeaf(u: nat) returns (r: Ref)
      requires Walking(u, 0, root) && Key(numBits, u) in leaves
      ensures r == leaves[Key(numBits, u)]
    {
      var now := root;
      var i := 0;
      while i < depth - 1
        invariant i < depth && Walking(u, i, now)
      {
        var child := ReadSlot(u, i, now);
        LeafMeaning(u, i, now, child);
        StepDown(T(), spot, leaves, u, i);
        now := child;
        i := i + 1;
      }
      r := ReadSlot(u, i, now);
      LeafMeaning(u, i, now, r);
    }

    /** The seed pair, then each given id with its leaf. */
    method Gather(ids: seq<nat>) returns (frontiers: seq<(Ref, nat)>)
      requires Shape() && TreeOk(T(), spot, leaves, 0, 0) && forall u | u in ids :: Key(numBits, u) in leaves
      ensures frontiers == Seeded(leaves, root, numBits, ids)
    {
      frontiers := [(root, 0)];
      for k := 0 to |ids|
        invariant frontiers == Seeded(leaves, root, numBits, ids[..k])
      {
        Restart(T(), spot, leaves, 0, 0, ids[k]);
        PrefixEnds(numBits, ids[k]);
        var r := FindLeaf(ids[k]);
        frontiers := frontiers + [(r, ids[k])];
        assert ids[..k + 1][..k] == ids[..k];
      }
      assert ids[..|ids|] == ids;
    }

    method SwitchWidths(newBits: seq<nat>)
      requires Layout() && |newBits| == depth
      modifies this`numBits, this`sumBits
      ensures Layout() && numBits == newBits
    {
      ghost var ws := numBits;
      for i := 0 to depth
        invariant Switched(ws, newBits, i)
      {
        SwitchWidth(ws, newBits, i);
      }
      AllSwitched(ws, newBits);
    }

    /** Builds the path of code `c` and hangs `r` at its end unless something hangs there already. */
    method Graft(r: Ref, c: nat)
      requires Shape() && TreeOk(T(), spot, leaves, 0, 0) && r != Null
      modifies this`nodes, this`spot, this`leaves, this`repr, repr
      ensures Shape() && TreeOk(T(), spot, leaves, 0, 0) && fresh(repr - old(repr))
      ensures leaves == if Key(numBits, c) in old(leaves) then old(leaves) else old(leaves)[Key(numBits, c) := r]
    {
      Restart(T(), spot, leaves, 0, 0, c);
      PrefixEnds(numBits, c);
      var now := BuildPath(root, c, 0);
      HangLeaf(c, depth - 1, now, r);
      Restart(T(), spot, leaves, c, depth - 1, 0);
    }

    method HangLeaf(c: nat, i: nat, now: Ref, r: Ref)
      requires Walking(c, i, now) && i + 1 == depth && r != Null
      modifies this`leaves, repr
      ensures Shape() && TreeOk(T(), spot, leaves, c, i) && Key(numBits, c) in leaves
      ensures leaves == if Key(numBits, c) in old(leaves) then old(leaves) else old(leaves)[Key(numBits, c) := r]
    {
      var child := ReadSlot(c, i, now);
      LeafMeaning(c, i, now, child);
      if child == Null {
        WriteLeaf(c, i, now, r);
      }
    }

    /** Builds a new tree from the entries, first come first served. */
    method Rebuild(frontiers: seq<(Ref, nat)>)
      requires Shape() && depth > 0 && forall k | 0 <= k < |frontiers| :: frontiers[k].0 != Null
      modifies this`root, this`nodes, this`spot, this`leaves, this`repr, repr
      ensures Shape() && root.NodeAt? && TreeOk(T(), spot, leaves, 0, 0) && fresh(repr - old(repr))
      ensures leaves == Rebuilt(numBits, frontiers)
    {
      NewRoot();
      for k := 0 to |frontiers|
        invariant Shape() && root.NodeAt? && TreeOk(T(), spot, leaves, 0, 0) && fresh(repr - old(repr))
        invariant leaves == Rebuilt(numBits, frontiers[..k])
      {
        GraftEntry(frontiers, k);
      }
      assert frontiers[..|frontiers|] == frontiers;
    }

    method GraftEntry(frontiers: seq<(Ref, nat)>, k: nat)
      requires Shape() && TreeOk(T(), spot, leaves, 0, 0) && k < |frontiers| && frontiers[k].0 != Null
      requires leaves == Rebuilt(numBits, frontiers[..k])
      modifies this`nodes, this`spot, this`leaves, this`repr, repr
      ensures Shape() && TreeOk(T(), spot, leaves, 0, 0) && fresh(repr - old(repr))
      ensures leaves == Rebuilt(numBits, frontiers[..k + 1])
    {
      RebuiltLast(numBits, frontiers[..k], frontiers[k].0, frontiers[k].1);
      assert frontiers[..k + 1] == frontiers[..k] + [(frontiers[k].0, frontiers[k].1)];
      Graft(frontiers[k].0, frontiers[k].1);
    }

    /** Another depth is not supported: nothing happens. Without a vertex set every lookup is preserved. With one, exactly
        the stored ids, every lookup is preserved except at key 0, which finds the old root. */
    method Transform(d: nat, newBits: seq<nat>, vertexSet: seq<nat>)
      requires Valid()
      requires d == depth ==> root != Null && |newBits| == d && Total(newBits) == Total(numBits)
      requires d == depth ==> forall u | u in vertexSet :: Key(numBits, u) in leaves
      requires d == depth && vertexSet != [] ==>
                 forall c | c in leaves :: exists u :: u in vertexSet && Key(numBits, u) == c
      modifies this, repr
      ensures Shape() && table == old(table) && fresh(repr - old(repr))
      ensures d != depth ==> Valid() && SameLayout() && root == old(root) && nodes == old(nodes)
      ensures d == depth ==> numBits == newBits && root.NodeAt? && TreeOk(T(), spot, leaves, 0, 0)
      ensures d == depth && vertexSet == [] ==> Valid()
      ensures d == depth ==> leaves == if vertexSet == [] then old(leaves) else old(leaves)[0 := old(root)]
      ensures d == depth ==> SameLookups(old(T()), T(), vertexSet != [])
    {
      if d == depth {
        ghost var t, spot', leaves' := T(), spot, leaves;
        LeavesBound(numBits, Ids());
        var frontiers := Entries(newBits, vertexSet);
        Rebuild(frontiers);
        SameTotalSameFind(t.ws, newBits, Ids(), 0);
        LookupsPreserved(t, spot', leaves', T(), spot, vertexSet != []);
      }
    }

    /** Sets the new widths and lists what the new tree must hold. */
    method Entries(newBits: seq<nat>, vertexSet: seq<nat>) returns (frontiers: seq<(Ref, nat)>)
      requires Shape() && TreeOk(T(), spot, leaves, 0, 0) && |newBits| == depth && Total(newBits) == Total(numBits)
      requires forall u | u in vertexSet :: Key(numBits, u) in leaves
      requires vertexSet != [] ==> forall c | c in leaves :: exists u :: u in vertexSet && Key(numBits, u) == c
      modifies this`numBits, this`sumBits
      ensures Shape() && numBits == newBits && forall k | 0 <= k < |frontiers| :: frontiers[k].0 != Null
      ensures Rebuilt(newBits, frontiers) == if vertexSet == [] then leaves else leaves[0 := root]
    {
      ghost var t := T();
      if vertexSet == [] {
        FrontierReadable(t, spot, leaves, 0);
        RebuiltFrontier(t, spot, leaves, 0, newBits);
        FrontierLeaves(t, depth);
        frontiers := Collect(t, newBits);
      } else {
        SeededNonNull(leaves, root, numBits, vertexSet);
        SeedTakesKeyZero(leaves, root, numBits, newBits, vertexSet);
        frontiers := Gather(vertexSet);
        SwitchWidths(newBits);
      }
    }

    // ----- Size -----

    /** Queues the non-null children of one node. */
    method QueueChildren(ghost t: Tree, q: seq<(Ref, nat)>, u: Ref, d: nat) returns (q': seq<(Ref, nat)>)
      requires Layout() && t == T() && d + 1 < depth && Queued(t, q) && InTree(t, u, d)
      requires IsNodeOfWidth(Pool(), u, Pow2(numBits[d]))
      ensures Queued(t, q') && QueueSlots(t, q') == QueueSlots(t, q) + ChildrenSlots(t, d, u, Pow2(numBits[d]))
    {
      q' := q;
      for i := 0 to Pow2(numBits[d])
        invariant Queued(t, q') && QueueSlots(t, q') == QueueSlots(t, q) + ChildrenSlots(t, d, u, i)
      {
        if nodes[u.a][i] != Null {
          InTreeChild(t, u, d, i);
          QueuePush(t, q', nodes[u.a][i], d + 1);
          q' := q' + [(nodes[u.a][i], d + 1)];
        }
      }
    }

    /** Slots allocated: for each level the number of distinct prefixes of the inserted ids times the level's width. */
    method Size() returns (sz: nat)
      requires Valid() && root != Null
      ensures sz == if Ids() == [] then Pow2(numBits[0]) else TreeSize(numBits, Ids(), 0)
    {
      ghost var t := T();
      sz := 0;
      var q: seq<(Ref, nat)> := [(root, 0)];
      assert At(t, 0, 0) == root;
      assert QueueSlots(t, q) == SubtreeSlots(t, 0, root) by {
        assert q[..0] == [];
        assert QueueSlots(t, q[..0]) == 0;
      }
      while q != []
        invariant Queued(t, q) && sz + QueueSlots(t, q) == SubtreeSlots(t, 0, root)
        decreases QueueSlots(t, q)
      {
        var u, d := q[0].0, q[0].1;
        InTreeNode(t, spot, leaves, 0, u, d);
        QueueFront(t, q);
        q := q[1..];
        if d < depth {
          sz := sz + Pow2(numBits[d]);
          if d < depth - 1 {
            q := QueueChildren(t, q, u, d);
          }
        }
      }
      SizeMeaning();
    }

    lemma {:induction false} SizeMeaning()
      requires Valid() && root != Null
      ensures SubtreeSlots(T(), 0, root) == if Ids() == [] then Pow2(numBits[0]) else TreeSize(numBits, Ids(), 0)
    {
      if Ids() == [] {
        RootSlots(T(), spot, 0);
      } else {
        LeavesBound(numBits, Ids());
        TreeSlots(T(), spot, leaves, 0);
        TreeSizeIsSlots(numBits, Ids(), 0);
      }
    }
  }
}
