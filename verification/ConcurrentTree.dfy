/** Threads inserting vertices into the radix tree at the same time.

    Each thread walks down without locks. At an empty slot it takes the slot's lock bit, looks again, and if the slot is
    still empty creates the node or vertex, publishes it in the slot and releases the bit. Every shared read or write is a
    step of its own. The root pointer is created the same way under the tree's own flag, so it is modelled as the single
    slot of an anchor node above the root: level 0 has width zero and the levels of the tree follow. */
module ConcurrentTree {
  import opened MixedRadix
  import opened Trie
  import opened FiniteSets

  datatype Pc =
    | Idle
    | Look | Want
    | Recheck | MakeNode | LinkNode
    | TakeTicket | GrowTable | SetIdx | LinkLeaf | SetNode
    | Unlock
    | Done

  /** A thread inserting `id`: the node it stands at and its level, whether it has entered InsertVertex, the node or vertex
      it is creating or has found, and the index it drew. */
  datatype Thread = Thread(pc: Pc, id: nat, level: nat, cur: nat, again: bool, tmp: Ref, ticket: nat)
  {
    predicate Active() {
      !pc.Idle? && !pc.Done?
    }

    /** Between taking and releasing the slot's lock bit. */
    predicate Critical() {
      Active() && !pc.Look? && !pc.Want?
    }

    /** Has found the slot empty under the lock and not filled it yet. */
    predicate Claims() {
      pc.MakeNode? || pc.LinkNode? || pc.TakeTicket? || pc.GrowTable? || pc.SetIdx? || pc.LinkLeaf?
    }
  }

  /** A table entry. `node` and `idx` are the program's; who created it, for which key, and whether it is linked into the
      tree are recorded for the proof. */
  datatype Vertex = Vertex(node: int, idx: int, key: nat, maker: nat, linked: bool)

  /** Who has an index: the thread that drew it or the vertex it was given to. */
  datatype Owner = Thr(t: nat) | Vert(v: nat)

  /** `locks` maps the set lock bits to their holders, `made` the unpublished nodes to their creators, `started` each key
      to the thread that last started inserting it, `begun` the ids whose insertion has started. */
  datatype State = State(t: Tree, spot: Spots, locks: map<(nat, nat), nat>, made: map<nat, nat>, cnt: nat, owners: seq<Owner>,
                         table: seq<Vertex>, threads: map<nat, Thread>, started: map<nat, nat>, begun: set<nat>)

  datatype Action = Start(id: nat) | Step

  predicate Initial(s: State, widths: seq<nat>) {
    && widths != [] && s.t == Tree([[Null]], NodeAt(0), [0] + widths) && s.spot == map[0 := (0, 0)]
    && s.locks == map[] && s.made == map[] && s.cnt == 0 && s.owners == [] && s.table == [] && s.started == map[] && s.begun == {}
    && forall t | t in s.threads :: s.threads[t].pc == Idle
  }

  /** The slot a thread is working on. */
  function SlotOf(ws: seq<nat>, th: Thread): (nat, nat) {
    (th.cur, if th.level < |ws| then Digit(ws, th.level, th.id) else 0)
  }

  function ReadSlot(t: Tree, th: Thread): Ref {
    Child(t.pool, NodeAt(th.cur), SlotOf(t.ws, th).1)
  }

  /** The thread's next step makes sense in the heap. */
  ghost predicate Typed(s: State, th: Thread) {
    && th.level < |s.t.ws|
    && th.cur < |s.t.pool| && SlotOf(s.t.ws, th).1 < |s.t.pool[th.cur]|
    && (th.pc.MakeNode? ==> th.level + 1 < |s.t.ws|)
    && (th.pc.LinkNode? ==> th.tmp.NodeAt?)
    && (th.pc.SetIdx? ==> th.ticket < |s.owners|)
    && (th.pc.SetIdx? || th.pc.LinkLeaf? || th.pc.SetNode? ==> th.tmp.VertexAt? && th.tmp.v < |s.table|)
  }

  ghost predicate Enabled(s: State, t: nat, a: Action) {
    && t in s.threads
    && match a
       case Start(_) => !s.threads[t].Active()
       case Step => s.threads[t].Active() && Typed(s, s.threads[t])
  }

  function Move(s: State, t: nat, th: Thread): State {
    s.(threads := s.threads[t := th])
  }

  function Write(s: State, th: Thread): State
    requires th.cur < |s.t.pool| && SlotOf(s.t.ws, th).1 < |s.t.pool[th.cur]|
  {
    s.(t := s.t.(pool := Put(s.t.pool, th.cur, SlotOf(s.t.ws, th).1, th.tmp)))
  }

  ghost function StepOf(s: State, t: nat, th: Thread): State
    requires Typed(s, th)
  {
    var slot := SlotOf(s.t.ws, th);
    var child := ReadSlot(s.t, th);
    var inner := th.level + 1 < |s.t.ws|;
    match th.pc
    case Look =>
      if child == Null then Move(s, t, if th.again then th.(pc := Want) else th.(again := true))
      else if inner then Move(s, t, if child.NodeAt? then th.(level := th.level + 1, cur := child.a) else th)
      else Move(s, t, th.(pc := Done, tmp := child))
    case Want => if slot in s.locks then s else Move(s, t, th.(pc := Recheck)).(locks := s.locks[slot := t])
    case Recheck =>
      if child == Null then Move(s, t, th.(pc := if inner then MakeNode else TakeTicket))
      else if inner then Move(s, t, th.(pc := Unlock))
      else Move(s, t, th.(pc := SetNode, tmp := child))
    case MakeNode =>
      var a := |s.t.pool|;
      Move(s, t, th.(pc := LinkNode, tmp := NodeAt(a)))
      .(t := s.t.(pool := s.t.pool + [Nulls(Pow2(s.t.ws[th.level + 1]))]), made := s.made[a := t])
    case LinkNode =>
      Move(Write(s, th), t, th.(pc := Unlock))
      .(spot := s.spot[th.tmp.a := (th.level + 1, Prefix(s.t.ws, th.level + 1, th.id))], made := s.made - {th.tmp.a})
    case TakeTicket =>
      Move(s, t, th.(pc := GrowTable, ticket := s.cnt)).(cnt := s.cnt + 1, owners := s.owners + [Thr(t)])
    case GrowTable =>
      Move(s, t, th.(pc := SetIdx, tmp := VertexAt(|s.table|)))
      .(table := s.table + [Vertex(-1, -1, Key(s.t.ws, th.id), t, false)])
    case SetIdx =>
      Move(s, t, th.(pc := LinkLeaf))
      .(table := s.table[th.tmp.v := s.table[th.tmp.v].(idx := th.ticket)], owners := s.owners[th.ticket := Vert(th.tmp.v)])
    case LinkLeaf =>
      Move(Write(s, th), t, th.(pc := SetNode)).(table := s.table[th.tmp.v := s.table[th.tmp.v].(linked := true)])
    case SetNode =>
      Move(s, t, th.(pc := Unlock)).(table := s.table[th.tmp.v := s.table[th.tmp.v].(node := th.id)])
    case Unlock => Move(s, t, th.(pc := if inner then Look else Done)).(locks := s.locks - {slot})
    case _ => s
  }

  ghost function Perform(s: State, t: nat, a: Action): State
    requires Enabled(s, t, a)
  {
    match a
    case Start(id) =>
      Move(s, t, Thread(Look, id, 0, 0, false, Null, 0)).(started := s.started[Key(s.t.ws, id) := t], begun := s.begun + {id})
    case Step => StepOf(s, t, s.threads[t])
  }

  // ----- The invariant -----

  /** The slot of a thread, read through prefixes. */
  ghost function Ahead(t: Tree, th: Thread): Ref
    requires th.level < |t.ws|
  {
    At(t, th.level + 1, Prefix(t.ws, th.level + 1, th.id))
  }

  ghost predicate StandsOk(s: State, th: Thread) {
    && th.level < |s.t.ws| && At(s.t, th.level, Prefix(s.t.ws, th.level, th.id)) == NodeAt(th.cur)
    && (th.Claims() ==> Ahead(s.t, th) == Null)
    && (th.pc.Unlock? ==> Ahead(s.t, th) != Null)
    && (th.pc.MakeNode? || th.pc.LinkNode? ==> th.level + 1 < |s.t.ws|)
    && (th.pc.TakeTicket? || th.pc.GrowTable? || th.pc.SetIdx? || th.pc.LinkLeaf? || th.pc.SetNode? ==>
          th.level + 1 == |s.t.ws|)
  }

  ghost predicate CreatesOk(s: State, t: nat, th: Thread) {
    && (th.pc.LinkNode? && th.level + 1 < |s.t.ws| ==>
          && th.tmp.NodeAt? && th.tmp.a in s.made && s.made[th.tmp.a] == t && th.tmp.a < |s.t.pool|
          && s.t.pool[th.tmp.a] == Nulls(Pow2(s.t.ws[th.level + 1])))
    && (th.pc.GrowTable? || th.pc.SetIdx? ==> th.ticket < |s.owners| && s.owners[th.ticket] == Thr(t))
    && (th.pc.SetIdx? || th.pc.LinkLeaf? ==>
          && th.tmp.VertexAt? && th.tmp.v < |s.table|
          && var v := s.table[th.tmp.v];
             v.maker == t && !v.linked && v.key == Key(s.t.ws, th.id) && (v.idx >= 0 <==> th.pc.LinkLeaf?))
  }

  /** A thread at or past the leaf has the vertex its key leads to. */
  ghost predicate FoundOk(s: State, th: Thread) {
    th.pc.SetNode? || th.pc.Done? || (th.pc.Unlock? && th.level + 1 == |s.t.ws|) ==>
      th.tmp.VertexAt? && At(s.t, |s.t.ws|, Key(s.t.ws, th.id)) == th.tmp
  }

  ghost predicate ThreadOk(s: State, t: nat)
    requires t in s.threads
  {
    var th := s.threads[t];
    && (th.Active() ==> StandsOk(s, th) && Key(s.t.ws, th.id) in s.started && th.id in s.begun)
    && (th.Critical() ==> SlotOf(s.t.ws, th) in s.locks && s.locks[SlotOf(s.t.ws, th)] == t)
    && CreatesOk(s, t, th) && FoundOk(s, th)
  }

  ghost predicate LeafOk(s: State, c: nat) {
    At(s.t, |s.t.ws|, c) != Null ==>
      && At(s.t, |s.t.ws|, c).VertexAt?
      && var v := At(s.t, |s.t.ws|, c).v;
         v < |s.table| && s.table[v].linked && s.table[v].key == c
  }

  /** The id stored in a vertex is one whose insertion has started, and has the vertex's key. */
  ghost predicate Named(ws: seq<nat>, begun: set<nat>, v: Vertex) {
    v.node >= 0 && v.node in begun && Key(ws, v.node) == v.key
  }

  ghost predicate VertexOk(s: State, v: nat)
    requires v < |s.table|
  {
    var x := s.table[v];
    && x.maker in s.threads && x.key in s.started && x.idx >= -1
    && (x.idx >= 0 ==> x.idx < |s.owners| && s.owners[x.idx] == Vert(v))
    && (x.linked ==> At(s.t, |s.t.ws|, x.key) == VertexAt(v) && x.idx >= 0)
    && (x.idx == -1 ==> s.threads[x.maker].pc.SetIdx? && s.threads[x.maker].tmp == VertexAt(v))
    && (!x.linked ==> (s.threads[x.maker].pc.SetIdx? || s.threads[x.maker].pc.LinkLeaf?) && s.threads[x.maker].tmp == VertexAt(v))
    && (x.linked && !Named(s.t.ws, s.begun, x) ==> s.threads[x.maker].pc.SetNode? && s.threads[x.maker].tmp == VertexAt(v))
  }

  ghost predicate OwnerOk(s: State, k: nat)
    requires k < |s.owners|
  {
    match s.owners[k]
    case Vert(v) => v < |s.table| && s.table[v].idx == k
    case Thr(t) => t in s.threads && (s.threads[t].pc.GrowTable? || s.threads[t].pc.SetIdx?) && s.threads[t].ticket == k
  }

  ghost predicate LockOk(s: State, slot: (nat, nat)) {
    slot in s.locks ==>
      && s.locks[slot] in s.threads && s.threads[s.locks[slot]].Critical()
      && SlotOf(s.t.ws, s.threads[s.locks[slot]]) == slot
  }

  /** A key somebody started to insert is in the tree or still being inserted. */
  ghost predicate StartOk(s: State, x: nat) {
    x in s.started ==>
      && x < Pow2(Total(s.t.ws)) && s.started[x] in s.threads
      && (At(s.t, |s.t.ws|, x) != Null ||
          (s.threads[s.started[x]].Active() && Key(s.t.ws, s.threads[s.started[x]].id) == x))
  }

  ghost predicate MadeOk(s: State, a: nat) {
    a in s.made ==> a < |s.t.pool| && a !in s.spot
  }

  ghost predicate TreeInv(s: State) {
    && |s.t.ws| > 1 && s.t.root == NodeAt(0) && Rooted(s.t, s.spot) && s.cnt == |s.owners|
    && (forall a | a in s.spot :: a < |s.t.pool|)
    && (forall a {:trigger MadeOk(s, a)} | 0 <= a :: MadeOk(s, a))
  }

  ghost predicate Inv(s: State) {
    && TreeInv(s)
    && (forall t {:trigger ThreadOk(s, t)} | t in s.threads :: ThreadOk(s, t))
    && (forall c {:trigger LeafOk(s, c)} | 0 <= c :: LeafOk(s, c))
    && (forall v {:trigger VertexOk(s, v)} | 0 <= v < |s.table| :: VertexOk(s, v))
    && (forall k {:trigger OwnerOk(s, k)} | 0 <= k < |s.owners| :: OwnerOk(s, k))
    && (forall slot {:trigger LockOk(s, slot)} :: LockOk(s, slot))
    && (forall x {:trigger StartOk(s, x)} | 0 <= x :: StartOk(s, x))
  }

  lemma {:induction false} StandsSlot(s: State, t: nat)
    requires TreeInv(s) && t in s.threads && s.threads[t].Active() && StandsOk(s, s.threads[t])
    ensures var th := s.threads[t];
            && th.cur < |s.t.pool| && SlotOf(s.t.ws, th).1 < |s.t.pool[th.cur]| && th.cur in s.spot
            && s.spot[th.cur] == (th.level, Prefix(s.t.ws, th.level, th.id))
            && SlotOf(s.t.ws, th).1 < Pow2(s.t.ws[th.level])
            && ReadSlot(s.t, th) == Ahead(s.t, th)
  {
    var th := s.threads[t];
    assert NodeOk(s.t, s.spot, th.level, Prefix(s.t.ws, th.level, th.id));
    PrefixStep(s.t.ws, th.level, th.id);
    AtStep(s.t, th.level, th.id);
  }

  lemma {:induction false} InvTyped(s: State, t: nat)
    requires Inv(s) && t in s.threads && s.threads[t].Active()
    ensures Typed(s, s.threads[t])
  {
    assert ThreadOk(s, t);
    StandsSlot(s, t);
    var th := s.threads[t];
    if th.pc.SetNode? {
      assert LeafOk(s, Key(s.t.ws, th.id));
    }
  }

  lemma {:induction false} InitialInv(s: State, widths: seq<nat>)
    requires Initial(s, widths)
    ensures Inv(s)
  {
    forall i, c | 0 <= i <= |s.t.ws| && 0 <= c ensures NodeOk(s.t, s.spot, i, c) {
      if i > 0 {
        AnchorOnly(s.t, i, c);
      }
    }
    forall c | 0 <= c ensures LeafOk(s, c) {
      AnchorOnly(s.t, |s.t.ws|, c);
    }
  }

  lemma {:induction false} AnchorOnly(t: Tree, i: nat, c: nat)
    requires t.pool == [[Null]] && t.root == NodeAt(0) && 0 < i <= |t.ws|
    ensures At(t, i, c) == Null
  {
    if i > 1 {
      AnchorOnly(t, i - 1, Quotient(c, Pow2(t.ws[i - 1])));
    }
  }

  // ----- What a step of one thread leaves to the others -----

  ghost predicate AtKept(t: Tree, t': Tree, i: nat, c: nat)
    requires i <= |t.ws| && t'.ws == t.ws
  {
    At(t, i, c) != Null ==> At(t', i, c) == At(t, i, c)
  }

  /** Only the slot whose lock the moving thread holds may have been filled. */
  ghost predicate AtNew(s: State, s': State, t: nat, u: nat)
    requires u in s.threads && s'.t.ws == s.t.ws
  {
    var th := s.threads[u];
    u != t && th.level < |s.t.ws| && th.Claims() && Ahead(s.t, th) == Null ==> Ahead(s'.t, th) == Null
  }

  ghost predicate TreeKept(s: State, s': State) {
    && s'.t.ws == s.t.ws
    && forall i, c {:trigger AtKept(s.t, s'.t, i, c)} | 0 <= i <= |s.t.ws| && 0 <= c :: AtKept(s.t, s'.t, i, c)
  }

  ghost predicate VertexKept(s: State, s': State, t: nat, v: nat) {
    v < |s.table| ==>
      && v < |s'.table| && s'.table[v].key == s.table[v].key && s'.table[v].maker == s.table[v].maker
      && (s.table[v].maker != t ==> s'.table[v].idx == s.table[v].idx && s'.table[v].linked == s.table[v].linked)
  }

  ghost predicate OwnerKept(s: State, s': State, t: nat, k: nat) {
    k < |s.owners| ==> k < |s'.owners| && (s.owners[k] != Thr(t) ==> s'.owners[k] == s.owners[k])
  }

  ghost predicate MadeKept(s: State, s': State, t: nat, a: nat) {
    a in s.made && s.made[a] != t && a < |s.t.pool| ==>
      a in s'.made && s'.made[a] == s.made[a] && a < |s'.t.pool| && s'.t.pool[a] == s.t.pool[a]
  }

  ghost predicate LockKept(s: State, s': State, t: nat, slot: (nat, nat)) {
    && (slot in s.locks && s.locks[slot] != t ==> slot in s'.locks && s'.locks[slot] == s.locks[slot])
    && (slot in s'.locks && s'.locks[slot] != t ==> slot in s.locks && s'.locks[slot] == s.locks[slot])
  }

  ghost predicate Kept(s: State, s': State, t: nat) {
    && TreeKept(s, s')
    && t in s.threads && s'.threads.Keys == s.threads.Keys && s.started.Keys <= s'.started.Keys && s.begun <= s'.begun
    && (forall u | u in s.threads && u != t :: s'.threads[u] == s.threads[u])
    && (forall u {:trigger AtNew(s, s', t, u)} | u in s.threads :: AtNew(s, s', t, u))
    && (forall v {:trigger VertexKept(s, s', t, v)} | 0 <= v :: VertexKept(s, s', t, v))
    && (forall k {:trigger OwnerKept(s, s', t, k)} | 0 <= k :: OwnerKept(s, s', t, k))
    && (forall a {:trigger MadeKept(s, s', t, a)} | 0 <= a :: MadeKept(s, s', t, a))
    && (forall slot {:trigger LockKept(s, s', t, slot)} :: LockKept(s, s', t, slot))
  }

  lemma {:induction false} OtherKept(s: State, s': State, t: nat, u: nat)
    requires Inv(s) && Kept(s, s', t) && u in s.threads && u != t
    ensures ThreadOk(s', u)
  {
    assert ThreadOk(s, u);
    var th := s.threads[u];
    if th.Active() {
      assert AtKept(s.t, s'.t, th.level, Prefix(s.t.ws, th.level, th.id));
      assert AtKept(s.t, s'.t, th.level + 1, Prefix(s.t.ws, th.level + 1, th.id));
      assert AtNew(s, s', t, u);
    }
    assert LockKept(s, s', t, SlotOf(s.t.ws, th));
    assert OwnerKept(s, s', t, th.ticket);
    if th.tmp.NodeAt? {
      assert MadeKept(s, s', t, th.tmp.a);
    }
    if th.tmp.VertexAt? {
      assert VertexKept(s, s', t, th.tmp.v);
    }
    assert AtKept(s.t, s'.t, |s.t.ws|, Key(s.t.ws, th.id));
  }

  lemma {:induction false} ThreadsKept(s: State, s': State, t: nat)
    requires Inv(s) && Kept(s, s', t) && ThreadOk(s', t)
    ensures forall u {:trigger ThreadOk(s', u)} | u in s'.threads :: ThreadOk(s', u)
  {
    forall u | u in s'.threads ensures ThreadOk(s', u) {
      if u != t {
        OtherKept(s, s', t, u);
      }
    }
  }

  /** Nothing shared changed but lock bits. */
  ghost predicate SameShared(s: State, s': State) {
    && s'.t == s.t && s'.spot == s.spot && s'.made == s.made && s'.cnt == s.cnt && s'.owners == s.owners && s'.table == s.table
  }

  /** The lock bits of thread `t` after its step are those of the slot it is working on, if it is inside. */
  ghost predicate OwnLock(s': State, t: nat, slot: (nat, nat))
    requires t in s'.threads
  {
    slot in s'.locks && s'.locks[slot] == t ==> s'.threads[t].Critical() && SlotOf(s'.t.ws, s'.threads[t]) == slot
  }

  ghost predicate LocksStep(s: State, s': State, t: nat)
    requires t in s'.threads
  {
    forall slot {:trigger LockKept(s, s', t, slot)} :: LockKept(s, s', t, slot) && OwnLock(s', t, slot)
  }

  lemma {:induction false} LocksAfter(s: State, s': State, t: nat)
    requires Inv(s) && t in s.threads && t in s'.threads && LocksStep(s, s', t) && s'.t.ws == s.t.ws
    requires s'.threads == s.threads[t := s'.threads[t]]
    ensures forall slot {:trigger LockOk(s', slot)} :: LockOk(s', slot)
  {
    forall slot ensures LockOk(s', slot) {
      assert LockKept(s, s', t, slot);
      assert OwnLock(s', t, slot);
      assert LockOk(s, slot);
    }
  }

  lemma {:induction false} LocalStep(s: State, s': State, t: nat, th: Thread, th': Thread)
    requires Inv(s) && t in s.threads && th == s.threads[t] && s'.threads == s.threads[t := th'] && SameShared(s, s')
    requires s'.started == s.started && s'.begun == s.begun && LocksStep(s, s', t)
    requires !th.pc.GrowTable? && !th.pc.SetIdx? && !th.pc.LinkLeaf? && !th.pc.SetNode? && th'.id == th.id
    requires ThreadOk(s', t) && (th'.Active() || th'.pc.Done?)
    ensures Inv(s')
  {
    forall u | u in s.threads ensures AtNew(s, s', t, u) {}
    ThreadsKept(s, s', t);
    LocksAfter(s, s', t);
    forall c | 0 <= c ensures LeafOk(s', c) {
      assert LeafOk(s, c);
    }
    forall v | 0 <= v < |s'.table| ensures VertexOk(s', v) {
      assert VertexOk(s, v);
    }
    forall k | 0 <= k < |s'.owners| ensures OwnerOk(s', k) {
      assert OwnerOk(s, k);
    }
    forall x | 0 <= x ensures StartOk(s', x) {
      assert StartOk(s, x);
    }
    forall a | 0 <= a ensures MadeOk(s', a) {
      assert MadeOk(s, a);
    }
  }

  /** A thread outside the slots holds no lock bit. */
  lemma {:induction false} OutsideLocks(s: State, s': State, t: nat)
    requires Inv(s) && t in s.threads && t in s'.threads && !s.threads[t].Critical() && s'.locks == s.locks
    ensures LocksStep(s, s', t)
  {
    forall slot ensures LockKept(s, s', t, slot) && OwnLock(s', t, slot) {
      assert LockOk(s, slot);
    }
  }

  /** The shape of a step that only looks at a slot: one thread moves, nothing else changes. */
  ghost predicate OnlyMoves(s: State, s': State, t: nat)
    requires t in s.threads
  {
    && t in s'.threads && s'.threads == s.threads[t := s'.threads[t]] && SameShared(s, s')
    && s'.started == s.started && s'.begun == s.begun && s'.locks == s.locks && s'.threads[t].id == s.threads[t].id
    && (s'.threads[t].Active() || s'.threads[t].pc.Done?)
  }

  lemma {:induction false} LookShape(s: State, t: nat, th: Thread)
    requires t in s.threads && th == s.threads[t] && th.pc.Look? && Typed(s, th)
    ensures OnlyMoves(s, StepOf(s, t, th), t)
  {
  }

  lemma {:induction false} LookThread(s: State, t: nat, th: Thread)
    requires Inv(s) && t in s.threads && th == s.threads[t] && th.pc.Look? && Typed(s, th)
    ensures t in StepOf(s, t, th).threads && ThreadOk(StepOf(s, t, th), t)
  {
    assert ThreadOk(s, t);
    StandsSlot(s, t);
    PrefixEnds(s.t.ws, th.id);
    assert LeafOk(s, Key(s.t.ws, th.id));
    assert NodeOk(s.t, s.spot, th.level + 1, Prefix(s.t.ws, th.level + 1, th.id));
  }

  lemma {:induction false} MoveStep(s: State, s': State, t: nat)
    requires Inv(s) && t in s.threads && s.threads[t].pc.Look? && OnlyMoves(s, s', t) && ThreadOk(s', t)
    ensures Inv(s')
  {
    OutsideLocks(s, s', t);
    LocalStep(s, s', t, s.threads[t], s'.threads[t]);
  }

  lemma {:induction false} LookStep(s: State, t: nat, th: Thread)
    requires Inv(s) && t in s.threads && th == s.threads[t] && th.pc.Look? && Typed(s, th)
    ensures Inv(StepOf(s, t, th))
  {
    LookShape(s, t, th);
    LookThread(s, t, th);
    MoveStep(s, StepOf(s, t, th), t);
  }

  lemma {:induction false} WantStep(s: State, t: nat, th: Thread)
    requires Inv(s) && t in s.threads && th == s.threads[t] && th.pc.Want? && Typed(s, th)
    ensures Inv(StepOf(s, t, th))
  {
    var s' := StepOf(s, t, th);
    assert ThreadOk(s, t);
    if s' != s {
      forall slot ensures LockKept(s, s', t, slot) && OwnLock(s', t, slot) {
        assert LockOk(s, slot);
      }
      LocalStep(s, s', t, th, s'.threads[t]);
    }
  }

  lemma {:induction false} RecheckStep(s: State, t: nat, th: Thread)
    requires Inv(s) && t in s.threads && th == s.threads[t] && th.pc.Recheck? && Typed(s, th)
    ensures Inv(StepOf(s, t, th))
  {
    var s' := StepOf(s, t, th);
    assert ThreadOk(s, t);
    StandsSlot(s, t);
    PrefixEnds(s.t.ws, th.id);
    assert LeafOk(s, Key(s.t.ws, th.id));
    forall slot ensures LockKept(s, s', t, slot) && OwnLock(s', t, slot) {
      assert LockOk(s, slot);
    }
    LocalStep(s, s', t, th, s'.threads[t]);
  }

  lemma {:induction false} UnlockStep(s: State, t: nat, th: Thread)
    requires Inv(s) && t in s.threads && th == s.threads[t] && th.pc.Unlock? && Typed(s, th)
    ensures Inv(StepOf(s, t, th))
  {
    var s' := StepOf(s, t, th);
    assert ThreadOk(s, t);
    forall slot ensures LockKept(s, s', t, slot) && OwnLock(s', t, slot) {
      assert LockOk(s, slot);
    }
    LocalStep(s, s', t, th, s'.threads[t]);
  }

  lemma {:induction false} StartStep(s: State, t: nat, id: nat)
    requires Inv(s) && Enabled(s, t, Start(id))
    ensures Inv(Perform(s, t, Start(id)))
  {
    var s' := Perform(s, t, Start(id));
    var key := Key(s.t.ws, id);
    KeyOfKey(s.t.ws, id);
    PrefixEnds(s.t.ws, id);
    assert ThreadOk(s', t);
    forall u | u in s.threads ensures AtNew(s, s', t, u) {}
    ThreadsKept(s, s', t);
    forall slot ensures LockKept(s, s', t, slot) && OwnLock(s', t, slot) {
      assert LockOk(s, slot);
    }
    LocksAfter(s, s', t);
    forall c | 0 <= c ensures LeafOk(s', c) {
      assert LeafOk(s, c);
    }
    forall v | 0 <= v < |s'.table| ensures VertexOk(s', v) {
      assert VertexOk(s, v);
    }
    forall k | 0 <= k < |s'.owners| ensures OwnerOk(s', k) {
      assert OwnerOk(s, k);
    }
    forall x | 0 <= x ensures StartOk(s', x) {
      assert StartOk(s, x);
      if x in s.started && s.started[x] == t && x != key {
        assert ThreadOk(s, t);
      }
    }
    forall a | 0 <= a ensures MadeOk(s', a) {
      assert MadeOk(s, a);
    }
  }

  // ----- Steps that create -----

  /** Thread `t` stays inside its slot. */
  ghost predicate StaysInside(s: State, s': State, t: nat) {
    && t in s.threads && t in s'.threads && s'.threads == s.threads[t := s'.threads[t]]
    && s.threads[t].Critical() && s'.threads[t].Critical()
    && s'.threads[t].id == s.threads[t].id && s'.threads[t].level == s.threads[t].level
    && s'.threads[t].cur == s.threads[t].cur
    && s'.locks == s.locks && s'.started == s.started && s'.begun == s.begun && s'.t.ws == s.t.ws
  }

  lemma {:induction false} InsideKept(s: State, s': State, t: nat)
    requires Inv(s) && StaysInside(s, s', t) && Kept(s, s', t) && ThreadOk(s', t)
    ensures forall u {:trigger ThreadOk(s', u)} | u in s'.threads :: ThreadOk(s', u)
    ensures forall slot {:trigger LockOk(s', slot)} :: LockOk(s', slot)
    ensures forall x {:trigger StartOk(s', x)} | 0 <= x :: StartOk(s', x)
  {
    ThreadsKept(s, s', t);
    forall slot ensures LockOk(s', slot) {
      assert LockOk(s, slot);
    }
    forall x | 0 <= x ensures StartOk(s', x) {
      assert StartOk(s, x);
      assert AtKept(s.t, s'.t, |s.t.ws|, x);
    }
  }

  /** Vertices and indices after a step that touches neither. */
  lemma {:induction false} TableKept(s: State, s': State, t: nat)
    requires Inv(s) && StaysInside(s, s', t) && TreeKept(s, s') && s'.table == s.table && s'.owners == s.owners
    requires !s.threads[t].pc.GrowTable? && !s.threads[t].pc.SetIdx? && !s.threads[t].pc.LinkLeaf? && !s.threads[t].pc.SetNode?
    ensures forall v {:trigger VertexOk(s', v)} | 0 <= v < |s'.table| :: VertexOk(s', v)
    ensures forall k {:trigger OwnerOk(s', k)} | 0 <= k < |s'.owners| :: OwnerOk(s', k)
  {
    forall v | 0 <= v < |s'.table| ensures VertexOk(s', v) {
      assert VertexOk(s, v);
      assert AtKept(s.t, s'.t, |s.t.ws|, s.table[v].key);
    }
    forall k | 0 <= k < |s'.owners| ensures OwnerOk(s', k) {
      assert OwnerOk(s, k);
    }
  }

  lemma {:induction false} MakeNodeStep(s: State, t: nat, th: Thread)
    requires Inv(s) && t in s.threads && th == s.threads[t] && th.pc.MakeNode? && Typed(s, th)
    ensures Inv(StepOf(s, t, th))
  {
    var s' := StepOf(s, t, th);
    assert ThreadOk(s, t);
    forall i, c | 0 <= i <= |s.t.ws| && 0 <= c ensures At(s'.t, i, c) == At(s.t, i, c) {
      AllocKeepsAt(s.t, s'.t, s.spot, Nulls(Pow2(s.t.ws[th.level + 1])), i, c);
    }
    forall i, c | 0 <= i <= |s.t.ws| && 0 <= c ensures NodeOk(s'.t, s'.spot, i, c) {
      assert NodeOk(s.t, s.spot, i, c);
    }
    forall a | 0 <= a ensures MadeOk(s', a) {
      assert MadeOk(s, a);
    }
    forall c | 0 <= c ensures LeafOk(s', c) {
      assert LeafOk(s, c);
    }
    forall u | u in s.threads ensures AtNew(s, s', t, u) {}
    forall a | 0 <= a ensures MadeKept(s, s', t, a) {}
    assert ThreadOk(s', t);
    InsideKept(s, s', t);
    TableKept(s, s', t);
  }

  /** Two threads working at the same prefix work at the same slot, which only one of them can have locked. */
  lemma {:induction false} SlotsDiffer(s: State, t: nat, u: nat)
    requires Inv(s) && t in s.threads && u in s.threads && t != u
    requires s.threads[t].Critical() && s.threads[u].Claims()
    ensures s.threads[u].level < |s.t.ws| && s.threads[t].level < |s.t.ws|
    ensures s.threads[u].level == s.threads[t].level ==>
              Prefix(s.t.ws, s.threads[u].level + 1, s.threads[u].id) != Prefix(s.t.ws, s.threads[t].level + 1, s.threads[t].id)
  {
    assert ThreadOk(s, t);
    assert ThreadOk(s, u);
    PrefixStep(s.t.ws, s.threads[t].level, s.threads[t].id);
    PrefixStep(s.t.ws, s.threads[u].level, s.threads[u].id);
  }

  /** The step changes what one prefix leads to, the one ahead of `th`. */
  ghost predicate OnlyAhead(s: State, s': State, th: Thread)
    requires th.level < |s.t.ws|
  {
    && s'.t.ws == s.t.ws
    && forall i, c {:trigger At(s'.t, i, c)} | 0 <= i <= |s.t.ws| && 0 <= c ::
         At(s'.t, i, c) == if i == th.level + 1 && c == Prefix(s.t.ws, th.level + 1, th.id) then th.tmp else At(s.t, i, c)
  }

  lemma {:induction false} FillsSlot(s: State, s': State, t: nat, th: Thread)
    requires TreeInv(s) && t in s.threads && th == s.threads[t] && StandsOk(s, th) && th.Claims() && Typed(s, th)
    requires s'.t == Write(s, th).t && th.tmp != Null
    requires th.level + 1 < |s.t.ws| ==> Barren(s'.t.pool, th.tmp)
    ensures var c := Prefix(s.t.ws, th.level, th.id);
            && Filled(s.t, s'.t, th.level, c, Digit(s.t.ws, th.level, th.id), th.tmp)
            && Join(s.t.ws, th.level, c, Digit(s.t.ws, th.level, th.id)) == Prefix(s.t.ws, th.level + 1, th.id)
  {
    StandsSlot(s, t);
    PrefixStep(s.t.ws, th.level, th.id);
    assert s'.t.pool[..|s.t.pool|] == s'.t.pool;
  }

  lemma {:induction false} FilledOnly(t: Tree, t': Tree, spot: Spots, i: nat, c: nat, j: nat, n: nat, r: Ref)
    requires Rooted(t, spot) && Filled(t, t', i, c, j, r) && n == Join(t.ws, i, c, j)
    ensures forall i', c' {:trigger At(t', i', c')} | 0 <= i' <= |t.ws| && 0 <= c' ::
              At(t', i', c') == if i' == i + 1 && c' == n then r else At(t, i', c')
  {
    forall i', c' | 0 <= i' <= |t.ws| && 0 <= c' ensures At(t', i', c') == if i' == i + 1 && c' == n then r else At(t, i', c') {
      AtAfterPut(t, t', spot, i, c, j, r, i', c');
    }
  }

  /** Publishing in the slot `t` has claimed. */
  lemma {:induction false} Published(s: State, s': State, t: nat, th: Thread)
    requires TreeInv(s) && t in s.threads && th == s.threads[t] && StandsOk(s, th) && th.Claims() && Typed(s, th)
    requires s'.t == Write(s, th).t && th.tmp != Null
    requires th.level + 1 < |s.t.ws| ==> Barren(s'.t.pool, th.tmp)
    ensures var c := Prefix(s.t.ws, th.level, th.id);
            && Filled(s.t, s'.t, th.level, c, Digit(s.t.ws, th.level, th.id), th.tmp)
            && Join(s.t.ws, th.level, c, Digit(s.t.ws, th.level, th.id)) == Prefix(s.t.ws, th.level + 1, th.id)
    ensures OnlyAhead(s, s', th)
  {
    FillsSlot(s, s', t, th);
    FilledOnly(s.t, s'.t, s.spot, th.level, Prefix(s.t.ws, th.level, th.id), Digit(s.t.ws, th.level, th.id),
               Prefix(s.t.ws, th.level + 1, th.id), th.tmp);
  }

  lemma {:induction false} PublishedKeeps(s: State, s': State, t: nat, th: Thread)
    requires Inv(s) && t in s.threads && th == s.threads[t] && th.Claims() && th.level < |s.t.ws|
    requires OnlyAhead(s, s', th) && Ahead(s.t, th) == Null
    ensures TreeKept(s, s') && forall u {:trigger AtNew(s, s', t, u)} | u in s.threads :: AtNew(s, s', t, u)
  {
    forall u | u in s.threads ensures AtNew(s, s', t, u) {
      if u != t && s.threads[u].Claims() {
        SlotsDiffer(s, t, u);
      }
    }
  }

  lemma {:induction false} LinkNodeTree(s: State, s': State, t: nat, th: Thread)
    requires Inv(s) && t in s.threads && th == s.threads[t] && th.pc.LinkNode? && Typed(s, th) && s' == StepOf(s, t, th)
    ensures TreeInv(s') && OnlyAhead(s, s', th) && Ahead(s.t, th) == Null && th.level + 1 < |s.t.ws| && th.tmp.NodeAt?
    ensures forall b {:trigger MadeKept(s, s', t, b)} | 0 <= b :: MadeKept(s, s', t, b)
  {
    assert ThreadOk(s, t);
    StandsSlot(s, t);
    var a := th.tmp.a;
    assert MadeOk(s, a);
    assert s'.t.pool[a] == s.t.pool[a];
    Published(s, s', t, th);
    LinkKeepsRooted(s.t, s'.t, s.spot, th.level, Prefix(s.t.ws, th.level, th.id), Digit(s.t.ws, th.level, th.id), a);
    forall b | 0 <= b ensures MadeOk(s', b) && MadeKept(s, s', t, b) {
      assert MadeOk(s, b);
    }
  }

  lemma {:induction false} LinkNodeStep(s: State, t: nat, th: Thread)
    requires Inv(s) && t in s.threads && th == s.threads[t] && th.pc.LinkNode? && Typed(s, th)
    ensures Inv(StepOf(s, t, th))
  {
    var s' := StepOf(s, t, th);
    assert ThreadOk(s, t);
    LinkNodeTree(s, s', t, th);
    PublishedKeeps(s, s', t, th);
    forall c | 0 <= c ensures LeafOk(s', c) {
      assert LeafOk(s, c);
    }
    assert ThreadOk(s', t);
    InsideKept(s, s', t);
    TableKept(s, s', t);
  }

  lemma {:induction false} TakeTicketStep(s: State, t: nat, th: Thread)
    requires Inv(s) && t in s.threads && th == s.threads[t] && th.pc.TakeTicket? && Typed(s, th)
    ensures Inv(StepOf(s, t, th))
  {
    var s' := StepOf(s, t, th);
    assert ThreadOk(s, t);
    forall u | u in s.threads ensures AtNew(s, s', t, u) {}
    assert ThreadOk(s', t);
    InsideKept(s, s', t);
    SameTreeInv(s, s');
    forall c | 0 <= c ensures LeafOk(s', c) {
      assert LeafOk(s, c);
    }
    forall v | 0 <= v < |s'.table| ensures VertexOk(s', v) {
      assert VertexOk(s, v);
    }
    forall k | 0 <= k < |s'.owners| ensures OwnerOk(s', k) {
      if k < |s.owners| {
        assert OwnerOk(s, k);
      }
    }
  }

  lemma {:induction false} SameTreeInv(s: State, s': State)
    requires TreeInv(s) && s'.t == s.t && s'.spot == s.spot && s'.made == s.made && s'.cnt == |s'.owners|
    ensures TreeInv(s')
  {
    forall a | 0 <= a ensures MadeOk(s', a) {
      assert MadeOk(s, a);
    }
  }

  lemma {:induction false} GrowTableStep(s: State, t: nat, th: Thread)
    requires Inv(s) && t in s.threads && th == s.threads[t] && th.pc.GrowTable? && Typed(s, th)
    ensures Inv(StepOf(s, t, th))
  {
    var s' := StepOf(s, t, th);
    assert ThreadOk(s, t);
    forall u | u in s.threads ensures AtNew(s, s', t, u) {}
    assert ThreadOk(s', t);
    InsideKept(s, s', t);
    SameTreeInv(s, s');
    forall c | 0 <= c ensures LeafOk(s', c) {
      assert LeafOk(s, c);
    }
    forall v | 0 <= v < |s'.table| ensures VertexOk(s', v) {
      if v < |s.table| {
        assert VertexOk(s, v);
      }
    }
    forall k | 0 <= k < |s'.owners| ensures OwnerOk(s', k) {
      assert OwnerOk(s, k);
    }
  }

  lemma {:induction false} SetIdxTables(s: State, s': State, t: nat, th: Thread)
    requires Inv(s) && t in s.threads && th == s.threads[t] && th.pc.SetIdx? && Typed(s, th) && s' == StepOf(s, t, th)
    ensures forall v {:trigger VertexOk(s', v)} | 0 <= v < |s'.table| :: VertexOk(s', v)
    ensures forall k {:trigger OwnerOk(s', k)} | 0 <= k < |s'.owners| :: OwnerOk(s', k)
  {
    assert ThreadOk(s, t);
    assert VertexOk(s, th.tmp.v);
    forall v | 0 <= v < |s'.table| ensures VertexOk(s', v) {
      assert VertexOk(s, v);
    }
    forall k | 0 <= k < |s'.owners| ensures OwnerOk(s', k) {
      assert OwnerOk(s, k);
    }
  }

  lemma {:induction false} SetIdxStep(s: State, t: nat, th: Thread)
    requires Inv(s) && t in s.threads && th == s.threads[t] && th.pc.SetIdx? && Typed(s, th)
    ensures Inv(StepOf(s, t, th))
  {
    var s' := StepOf(s, t, th);
    assert ThreadOk(s, t);
    assert VertexOk(s, th.tmp.v);
    forall u | u in s.threads ensures AtNew(s, s', t, u) {}
    assert ThreadOk(s', t);
    InsideKept(s, s', t);
    SameTreeInv(s, s');
    forall c | 0 <= c ensures LeafOk(s', c) {
      assert LeafOk(s, c);
    }
    SetIdxTables(s, s', t, th);
  }

  lemma {:induction false} LinkLeafTree(s: State, s': State, t: nat, th: Thread)
    requires Inv(s) && t in s.threads && th == s.threads[t] && th.pc.LinkLeaf? && Typed(s, th) && s' == StepOf(s, t, th)
    ensures TreeInv(s') && OnlyAhead(s, s', th) && Ahead(s.t, th) == Null && th.level + 1 == |s.t.ws|
    ensures forall b {:trigger MadeKept(s, s', t, b)} | 0 <= b :: MadeKept(s, s', t, b)
    ensures Prefix(s.t.ws, th.level + 1, th.id) == Key(s.t.ws, th.id)
  {
    assert ThreadOk(s, t);
    StandsSlot(s, t);
    PrefixEnds(s.t.ws, th.id);
    Published(s, s', t, th);
    LeafKeepsRooted(s.t, s'.t, s.spot, th.level, Prefix(s.t.ws, th.level, th.id), Digit(s.t.ws, th.level, th.id), th.tmp);
    forall b | 0 <= b ensures MadeOk(s', b) && MadeKept(s, s', t, b) {
      assert MadeOk(s, b);
    }
  }

  lemma {:induction false} LinkLeafStep(s: State, t: nat, th: Thread)
    requires Inv(s) && t in s.threads && th == s.threads[t] && th.pc.LinkLeaf? && Typed(s, th)
    ensures Inv(StepOf(s, t, th))
  {
    var s' := StepOf(s, t, th);
    assert ThreadOk(s, t);
    assert VertexOk(s, th.tmp.v);
    LinkLeafTree(s, s', t, th);
    PublishedKeeps(s, s', t, th);
    assert ThreadOk(s', t);
    InsideKept(s, s', t);
    forall c | 0 <= c ensures LeafOk(s', c) {
      assert LeafOk(s, c);
    }
    LinkLeafVertices(s, s', t, th);
  }

  lemma {:induction false} LinkLeafVertices(s: State, s': State, t: nat, th: Thread)
    requires Inv(s) && t in s.threads && th == s.threads[t] && th.pc.LinkLeaf? && Typed(s, th) && s' == StepOf(s, t, th)
    requires TreeKept(s, s') && At(s'.t, |s.t.ws|, Key(s.t.ws, th.id)) == th.tmp
    ensures forall v {:trigger VertexOk(s', v)} | 0 <= v < |s'.table| :: VertexOk(s', v)
    ensures forall k {:trigger OwnerOk(s', k)} | 0 <= k < |s'.owners| :: OwnerOk(s', k)
  {
    assert ThreadOk(s, t);
    forall v | 0 <= v < |s'.table| ensures VertexOk(s', v) {
      assert VertexOk(s, v);
      assert AtKept(s.t, s'.t, |s.t.ws|, s.table[v].key);
    }
    forall k | 0 <= k < |s'.owners| ensures OwnerOk(s', k) {
      assert OwnerOk(s, k);
    }
  }

  lemma {:induction false} SetNodeTables(s: State, s': State, t: nat, th: Thread)
    requires Inv(s) && t in s.threads && th == s.threads[t] && th.pc.SetNode? && Typed(s, th) && s' == StepOf(s, t, th)
    ensures forall v {:trigger VertexOk(s', v)} | 0 <= v < |s'.table| :: VertexOk(s', v)
    ensures forall k {:trigger OwnerOk(s', k)} | 0 <= k < |s'.owners| :: OwnerOk(s', k)
  {
    assert ThreadOk(s, t);
    assert LeafOk(s, Key(s.t.ws, th.id));
    PrefixEnds(s.t.ws, th.id);
    forall v | 0 <= v < |s'.table| ensures VertexOk(s', v) {
      assert VertexOk(s, v);
    }
    forall k | 0 <= k < |s'.owners| ensures OwnerOk(s', k) {
      assert OwnerOk(s, k);
    }
  }

  lemma {:induction false} SetNodeStep(s: State, t: nat, th: Thread)
    requires Inv(s) && t in s.threads && th == s.threads[t] && th.pc.SetNode? && Typed(s, th)
    ensures Inv(StepOf(s, t, th))
  {
    var s' := StepOf(s, t, th);
    assert ThreadOk(s, t);
    assert LeafOk(s, Key(s.t.ws, th.id));
    PrefixEnds(s.t.ws, th.id);
    forall u | u in s.threads ensures AtNew(s, s', t, u) {}
    assert ThreadOk(s', t);
    InsideKept(s, s', t);
    SameTreeInv(s, s');
    forall c | 0 <= c ensures LeafOk(s', c) {
      assert LeafOk(s, c);
    }
    SetNodeTables(s, s', t, th);
  }

  // ----- Every step, every run -----

  lemma {:induction false} StepInv(s: State, t: nat, th: Thread)
    requires Inv(s) && t in s.threads && th == s.threads[t] && th.Active() && Typed(s, th)
    ensures Inv(StepOf(s, t, th))
  {
    match th.pc {
      case Look => LookStep(s, t, th);
      case Want => WantStep(s, t, th);
      case Recheck => RecheckStep(s, t, th);
      case MakeNode => MakeNodeStep(s, t, th);
      case LinkNode => LinkNodeStep(s, t, th);
      case TakeTicket => TakeTicketStep(s, t, th);
      case GrowTable => GrowTableStep(s, t, th);
      case SetIdx => SetIdxStep(s, t, th);
      case LinkLeaf => LinkLeafStep(s, t, th);
      case SetNode => SetNodeStep(s, t, th);
      case Unlock => UnlockStep(s, t, th);
      case _ =>
    }
  }

  ghost predicate Next(s: State, s': State) {
    exists t, a :: Enabled(s, t, a) && s' == Perform(s, t, a)
  }

  lemma {:induction false} NextInv(s: State, s': State)
    requires Inv(s) && Next(s, s')
    ensures Inv(s')
  {
    var t, a :| Enabled(s, t, a) && s' == Perform(s, t, a);
    match a {
      case Start(id) => StartStep(s, t, id);
      case Step => StepInv(s, t, s.threads[t]);
    }
  }

  ghost predicate StepAt(run: seq<State>, k: nat)
    requires k < |run| - 1
  {
    Next(run[k], run[k + 1])
  }

  ghost predicate IsRun(run: seq<State>, widths: seq<nat>) {
    && run != [] && Initial(run[0], widths)
    && forall k {:trigger StepAt(run, k)} | 0 <= k < |run| - 1 :: StepAt(run, k)
  }

  lemma {:induction false} RunInv(run: seq<State>, widths: seq<nat>, k: nat)
    requires IsRun(run, widths) && k < |run|
    ensures Inv(run[k])
  {
    if k == 0 {
      InitialInv(run[0], widths);
    } else {
      RunInv(run, widths, k - 1);
      assert StepAt(run, k - 1);
      NextInv(run[k - 1], run[k]);
    }
  }

  /** No thread is ever stuck: an active thread always has a next step, and whoever holds the bit it may be waiting for is
      inside that slot and does not wait. */
  lemma {:induction false} NobodyStuck(run: seq<State>, widths: seq<nat>, k: nat, t: nat)
    requires IsRun(run, widths) && k < |run| && t in run[k].threads && run[k].threads[t].Active()
    ensures Enabled(run[k], t, Step)
    ensures var s, slot := run[k], SlotOf(run[k].t.ws, run[k].threads[t]);
            s.threads[t].pc.Want? && slot in s.locks ==>
              s.locks[slot] in s.threads && s.threads[s.locks[slot]].Critical()
              && SlotOf(s.t.ws, s.threads[s.locks[slot]]) == slot
  {
    RunInv(run, widths, k);
    InvTyped(run[k], t);
    assert LockOk(run[k], SlotOf(run[k].t.ws, run[k].threads[t]));
  }

  // ----- What the invariant says -----

  /** What a step does to the nodes. */
  ghost function PoolAfter(s: State, th: Thread): seq<Children>
    requires Typed(s, th)
  {
    if th.pc.LinkNode? || th.pc.LinkLeaf? then Put(s.t.pool, th.cur, SlotOf(s.t.ws, th).1, th.tmp)
    else if th.pc.MakeNode? then s.t.pool + [Nulls(Pow2(s.t.ws[th.level + 1]))]
    else s.t.pool
  }

  lemma {:induction false} StepPool(s: State, t: nat, th: Thread)
    requires Typed(s, th)
    ensures StepOf(s, t, th).t == s.t.(pool := PoolAfter(s, th))
  {
    match th.pc {
      case LinkNode =>
      case LinkLeaf =>
      case MakeNode =>
      case _ =>
    }
  }

  lemma {:induction false} StepFixesChildren(s: State, t: nat, th: Thread, a: nat, j: nat)
    requires Typed(s, th) && Child(s.t.pool, NodeAt(a), j) != Null
    requires th.pc.LinkNode? || th.pc.LinkLeaf? ==> ReadSlot(s.t, th) == Null
    ensures Child(PoolAfter(s, th), NodeAt(a), j) == Child(s.t.pool, NodeAt(a), j)
  {
  }

  /** A child pointer that is not null never changes again. */
  lemma {:induction false} ChildFixed(s: State, s': State, a: nat, j: nat)
    requires Inv(s) && Next(s, s') && Child(s.t.pool, NodeAt(a), j) != Null
    ensures s'.t.ws == s.t.ws && Child(s'.t.pool, NodeAt(a), j) == Child(s.t.pool, NodeAt(a), j)
  {
    var t, act :| Enabled(s, t, act) && s' == Perform(s, t, act);
    if act.Step? {
      assert ThreadOk(s, t);
      StandsSlot(s, t);
      StepPool(s, t, s.threads[t]);
      StepFixesChildren(s, t, s.threads[t], a, j);
    }
  }

  lemma {:induction false} TreeShape(s: State, s': State)
    requires Next(s, s')
    ensures s'.t.ws == s.t.ws && s'.t.root == s.t.root
  {
    var t, a :| Enabled(s, t, a) && s' == Perform(s, t, a);
    if a.Step? {
      StepPool(s, t, s.threads[t]);
    }
  }

  lemma {:induction false} WidthsFixed(run: seq<State>, widths: seq<nat>, k: nat)
    requires IsRun(run, widths) && k < |run|
    ensures run[k].t.ws == [0] + widths && run[k].t.root == NodeAt(0)
  {
    if k > 0 {
      WidthsFixed(run, widths, k - 1);
      assert StepAt(run, k - 1);
      TreeShape(run[k - 1], run[k]);
    }
  }

  lemma {:induction false} ChildFixedForGood(run: seq<State>, widths: seq<nat>, i: nat, k: nat, a: nat, j: nat)
    requires IsRun(run, widths) && i <= k < |run| && Child(run[i].t.pool, NodeAt(a), j) != Null
    ensures Child(run[k].t.pool, NodeAt(a), j) == Child(run[i].t.pool, NodeAt(a), j)
    decreases k
  {
    if i < k {
      ChildFixedForGood(run, widths, i, k - 1, a, j);
      RunInv(run, widths, k - 1);
      assert StepAt(run, k - 1);
      ChildFixed(run[k - 1], run[k], a, j);
    }
  }

  lemma {:induction false} AtFixed(run: seq<State>, widths: seq<nat>, i: nat, k: nat, l: nat, c: nat)
    requires IsRun(run, widths) && i <= k < |run| && l <= |run[i].t.ws| && At(run[i].t, l, c) != Null
    ensures run[k].t.ws == run[i].t.ws && At(run[k].t, l, c) == At(run[i].t, l, c)
    decreases l
  {
    WidthsFixed(run, widths, i);
    WidthsFixed(run, widths, k);
    if l > 0 {
      var w := Pow2(run[i].t.ws[l - 1]);
      AtFixed(run, widths, i, k, l - 1, Quotient(c, w));
      ChildFixedForGood(run, widths, i, k, At(run[i].t, l - 1, Quotient(c, w)).a, Remainder(c, w));
    }
  }

  /** Whoever inserts ids with the same key, whenever they finish, gets the same vertex; different keys get different
      vertices. Ids below `2^total` are their own keys. */
  lemma {:induction false} OneVertexPerKey(run: seq<State>, widths: seq<nat>, i: nat, k: nat, t: nat, u: nat)
    requires IsRun(run, widths) && i <= k < |run| && t in run[i].threads && u in run[k].threads
    requires run[i].threads[t].pc.Done? && run[k].threads[u].pc.Done?
    ensures var a, b := run[i].threads[t], run[k].threads[u];
            && a.tmp.VertexAt? && b.tmp.VertexAt?
            && (a.tmp == b.tmp <==> Key(run[i].t.ws, a.id) == Key(run[i].t.ws, b.id))
  {
    var ws := run[i].t.ws;
    RunInv(run, widths, i);
    RunInv(run, widths, k);
    assert ThreadOk(run[i], t);
    assert ThreadOk(run[k], u);
    var a, b := Key(ws, run[i].threads[t].id), Key(ws, run[k].threads[u].id);
    AtFixed(run, widths, i, k, |ws|, a);
    assert LeafOk(run[k], a);
    assert LeafOk(run[k], b);
  }

  lemma {:induction false} AnchorKeys(widths: seq<nat>, i: nat)
    requires i <= |widths|
    ensures Pre([0] + widths, i + 1) == Pre(widths, i)
  {
    if i > 0 {
      AnchorKeys(widths, i - 1);
    }
  }

  lemma {:induction false} KeyBelowTotal(widths: seq<nat>, id: nat)
    ensures Key([0] + widths, id) == Key(widths, id) && (id < Pow2(Total(widths)) ==> Key(widths, id) == id)
  {
    AnchorKeys(widths, |widths|);
    if id < Pow2(Total(widths)) {
      KeyPrefix(widths, id);
    }
  }

  // ----- At rest -----

  ghost predicate Quiescent(s: State) {
    forall t | t in s.threads :: !s.threads[t].Active()
  }

  /** The indices of the vertices, and the vertices of the indices. */
  function Indices(table: seq<Vertex>): (f: seq<nat>)
    requires forall v | 0 <= v < |table| :: table[v].idx >= 0
    ensures |f| == |table| && forall v | 0 <= v < |table| :: f[v] == table[v].idx
  {
    seq(|table|, v requires 0 <= v < |table| => table[v].idx)
  }

  function Holders(owners: seq<Owner>): (f: seq<nat>)
    requires forall k | 0 <= k < |owners| :: owners[k].Vert?
    ensures |f| == |owners| && forall k | 0 <= k < |owners| :: f[k] == owners[k].v
  {
    seq(|owners|, k requires 0 <= k < |owners| => owners[k].v)
  }

  function Keys(table: seq<Vertex>): (f: seq<nat>)
    ensures |f| == |table| && forall v | 0 <= v < |table| :: f[v] == table[v].key
  {
    seq(|table|, v requires 0 <= v < |table| => table[v].key)
  }

  /** Every vertex is finished once nobody is running. */
  lemma {:induction false} RestVertex(s: State, v: nat)
    requires Inv(s) && Quiescent(s) && v < |s.table|
    ensures 0 <= s.table[v].idx < s.cnt && s.owners[s.table[v].idx] == Vert(v) && Named(s.t.ws, s.begun, s.table[v])
    ensures At(s.t, |s.t.ws|, s.table[v].key) == VertexAt(v) && s.table[v].key in s.started
  {
    assert VertexOk(s, v);
  }

  lemma {:induction false} RestOwner(s: State, k: nat)
    requires Inv(s) && Quiescent(s) && k < s.cnt
    ensures s.owners[k].Vert? && s.owners[k].v < |s.table| && s.table[s.owners[k].v].idx == k
  {
    assert OwnerOk(s, k);
  }

  lemma {:induction false} RestKey(s: State, x: nat)
    requires Inv(s) && Quiescent(s) && x in s.started
    ensures At(s.t, |s.t.ws|, x).VertexAt? && At(s.t, |s.t.ws|, x).v < |s.table|
    ensures s.table[At(s.t, |s.t.ws|, x).v].key == x
  {
    assert StartOk(s, x);
    assert LeafOk(s, x);
  }

  /** As many indices as vertices. */
  lemma {:induction false} RestCounts(s: State)
    requires Inv(s) && Quiescent(s)
    ensures s.cnt == |s.table|
  {
    forall v | 0 <= v < |s.table| ensures 0 <= s.table[v].idx < s.cnt && s.owners[s.table[v].idx] == Vert(v) {
      RestVertex(s, v);
    }
    forall k | 0 <= k < |s.owners|
      ensures s.owners[k].Vert? && s.owners[k].v < |s.table| && s.table[s.owners[k].v].idx == k
    {
      RestOwner(s, k);
    }
    Pigeonhole(Indices(s.table), s.cnt);
    Pigeonhole(Holders(s.owners), |s.table|);
  }

  /** As many vertices as keys. */
  lemma {:induction false} RestKeys(s: State)
    requires Inv(s) && Quiescent(s)
    ensures |s.started.Keys| == |s.table|
  {
    var f := Keys(s.table);
    forall u, v | 0 <= u < v < |f| ensures f[u] != f[v] {
      RestVertex(s, u);
      RestVertex(s, v);
    }
    ImageSize(f);
    forall x | x in s.started ensures x in Image(f) {
      RestKey(s, x);
      assert f[At(s.t, |s.t.ws|, x).v] == x;
    }
    forall v | 0 <= v < |f| ensures f[v] in s.started {
      RestVertex(s, v);
    }
    assert Image(f) == s.started.Keys;
  }

  ghost predicate IndexUsed(s: State, k: nat) {
    exists v :: 0 <= v < |s.table| && s.table[v].idx == k
  }

  /** A finished vertex: its index is below the counter, its id has its key, and its key finds it. */
  ghost predicate Finished(s: State, v: nat)
    requires v < |s.table|
  {
    && 0 <= s.table[v].idx < s.cnt && Named(s.t.ws, s.begun, s.table[v])
    && At(s.t, |s.t.ws|, s.table[v].key) == VertexAt(v)
  }

  /** With no insertion in flight: the counter is the number of distinct inserted keys, each key finds the one vertex that
      carries an id with that key, the indices are exactly the numbers below the counter, each once, and no lock bit is
      set. */
  lemma {:induction false} AtRest(run: seq<State>, widths: seq<nat>, i: nat)
    requires IsRun(run, widths) && i < |run| && Quiescent(run[i])
    ensures var s := run[i];
            && s.cnt == |s.started.Keys| == |s.table| && s.locks == map[]
            && (forall v | 0 <= v < |s.table| :: Finished(s, v))
            && (forall u, v | 0 <= u < v < |s.table| :: s.table[u].idx != s.table[v].idx)
            && (forall k | 0 <= k < s.cnt :: IndexUsed(s, k))
            && (forall x | x in s.started :: At(s.t, |s.t.ws|, x).VertexAt?)
  {
    RunInv(run, widths, i);
    var s := run[i];
    RestCounts(s);
    RestKeys(s);
    forall slot ensures slot !in s.locks {
      assert LockOk(s, slot);
    }
    forall v | 0 <= v < |s.table| ensures Finished(s, v) {
      RestVertex(s, v);
    }
    forall u, v | 0 <= u < v < |s.table| ensures s.table[u].idx != s.table[v].idx {
      RestVertex(s, u);
      RestVertex(s, v);
    }
    forall k | 0 <= k < s.cnt ensures IndexUsed(s, k) {
      RestOwner(s, k);
    }
    forall x | x in s.started ensures At(s.t, |s.t.ws|, x).VertexAt? {
      RestKey(s, x);
    }
  }

  // ----- Index and position -----

  /** At most one thread is between drawing an index and taking a table slot. */
  ghost predicate Alone(s: State) {
    forall t, u | t in s.threads && u in s.threads && s.threads[t].pc.GrowTable? && s.threads[u].pc.GrowTable? :: t == u
  }

  ghost predicate DrawOk(s: State, t: nat)
    requires t in s.threads
  {
    && (s.threads[t].pc.GrowTable? ==> s.threads[t].ticket == |s.table| && s.cnt == |s.table| + 1)
    && (s.threads[t].pc.SetIdx? ==> s.threads[t].tmp == VertexAt(s.threads[t].ticket))
  }

  ghost predicate Growing(s: State) {
    exists t :: t in s.threads && s.threads[t].pc.GrowTable?
  }

  ghost predicate InOrder(s: State) {
    && (forall v | 0 <= v < |s.table| :: s.table[v].idx == -1 || s.table[v].idx == v)
    && (forall t {:trigger DrawOk(s, t)} | t in s.threads :: DrawOk(s, t))
    && (!Growing(s) ==> s.cnt == |s.table|)
  }

  /** What the step does to the counter and the table. */
  ghost predicate Draws(s: State, s': State, t: nat, th: Thread)
    requires t in s'.threads
  {
    && s'.threads == s.threads[t := s'.threads[t]]
    && (s'.threads[t].pc.GrowTable? <==> th.pc.TakeTicket?)
    && (s'.threads[t].pc.SetIdx? <==> th.pc.GrowTable?)
    && (th.pc.TakeTicket? ==> s'.cnt == s.cnt + 1 && s'.threads[t].ticket == s.cnt)
    && (!th.pc.TakeTicket? ==> s'.cnt == s.cnt)
    && (th.pc.GrowTable? ==>
          && |s'.table| == |s.table| + 1 && s'.table[..|s.table|] == s.table && s'.table[|s.table|].idx == -1
          && s'.threads[t].tmp == VertexAt(|s.table|) && s'.threads[t].ticket == th.ticket)
    && (!th.pc.GrowTable? ==> |s'.table| == |s.table|)
    && (!th.pc.GrowTable? && !th.pc.SetIdx? ==> forall v | 0 <= v < |s.table| :: s'.table[v].idx == s.table[v].idx)
    && (th.pc.SetIdx? && th.tmp.VertexAt? && th.tmp.v < |s.table| ==>
          s'.table == s.table[th.tmp.v := s.table[th.tmp.v].(idx := th.ticket)])
  }

  lemma {:induction false} StepDraws(s: State, t: nat, th: Thread)
    requires t in s.threads && th == s.threads[t] && Typed(s, th) && th.Active()
    ensures Draws(s, StepOf(s, t, th), t, th)
  {
    if th.pc.TakeTicket? || th.pc.GrowTable? || th.pc.SetIdx? {
      CreatorDraws(s, t, th);
    } else if th.pc.LinkLeaf? || th.pc.SetNode? {
      WriterDraws(s, t, th);
    } else {
      OtherDraws(s, t, th);
    }
  }

  lemma {:induction false} CreatorDraws(s: State, t: nat, th: Thread)
    requires t in s.threads && th == s.threads[t] && Typed(s, th) && (th.pc.TakeTicket? || th.pc.GrowTable? || th.pc.SetIdx?)
    ensures Draws(s, StepOf(s, t, th), t, th)
  {
    match th.pc {
      case TakeTicket =>
      case GrowTable =>
      case SetIdx =>
    }
  }

  lemma {:induction false} WriterDraws(s: State, t: nat, th: Thread)
    requires t in s.threads && th == s.threads[t] && Typed(s, th) && (th.pc.LinkLeaf? || th.pc.SetNode?)
    ensures Draws(s, StepOf(s, t, th), t, th)
  {
    match th.pc {
      case LinkLeaf =>
      case SetNode =>
    }
  }

  lemma {:induction false} OtherDraws(s: State, t: nat, th: Thread)
    requires t in s.threads && th == s.threads[t] && Typed(s, th) && th.Active()
    requires !th.pc.TakeTicket? && !th.pc.GrowTable? && !th.pc.SetIdx? && !th.pc.LinkLeaf? && !th.pc.SetNode?
    ensures Draws(s, StepOf(s, t, th), t, th)
  {
    if th.pc.MakeNode? {
    } else if th.pc.LinkNode? {
    } else {
      LocalDraws(s, t, th);
    }
  }

  /** A step that moves one thread and leaves counter and table alone. */
  lemma {:induction false} MovedDraws(s: State, s': State, t: nat, th: Thread, th': Thread)
    requires t in s.threads && s'.threads == s.threads[t := th'] && s'.cnt == s.cnt && s'.table == s.table
    requires !th.pc.TakeTicket? && !th.pc.GrowTable? && !th.pc.SetIdx? && !th'.pc.GrowTable? && !th'.pc.SetIdx?
    ensures Draws(s, s', t, th)
  {
  }

  lemma {:induction false} LocalDraws(s: State, t: nat, th: Thread)
    requires t in s.threads && th == s.threads[t] && Typed(s, th)
    requires th.pc.Look? || th.pc.Want? || th.pc.Recheck? || th.pc.Unlock?
    ensures Draws(s, StepOf(s, t, th), t, th)
  {
    if th.pc.Look? {
      LookDraws(s, t, th);
    } else {
      var s' := StepOf(s, t, th);
      assert s'.threads == s.threads[t := s'.threads[t]];
      MovedDraws(s, s', t, th, s'.threads[t]);
    }
  }

  lemma {:induction false} LookDraws(s: State, t: nat, th: Thread)
    requires t in s.threads && th == s.threads[t] && Typed(s, th) && th.pc.Look?
    ensures Draws(s, StepOf(s, t, th), t, th)
  {
    var s' := StepOf(s, t, th);
    assert s'.threads == s.threads[t := s'.threads[t]];
    MovedDraws(s, s', t, th, s'.threads[t]);
  }

  lemma {:induction false} DrawsInOrder(s: State, s': State, t: nat, th: Thread)
    requires InOrder(s) && t in s.threads && th == s.threads[t] && t in s'.threads && Draws(s, s', t, th)
    requires th.pc.SetIdx? ==> th.tmp.VertexAt? && th.tmp.v < |s.table|
    requires Alone(s) && Alone(s')
    ensures InOrder(s')
  {
    assert DrawOk(s, t);
    if Growing(s) && !th.pc.GrowTable? {
      var u :| u in s.threads && s.threads[u].pc.GrowTable?;
      assert s'.threads[u].pc.GrowTable?;
      assert DrawOk(s, u);
    }
    assert th.pc.TakeTicket? ==> s'.threads[t].pc.GrowTable?;
    forall u | u in s'.threads ensures DrawOk(s', u) {
      assert DrawOk(s, u);
    }
    forall v | 0 <= v < |s'.table| ensures s'.table[v].idx == -1 || s'.table[v].idx == v {
      assert v < |s.table| && th.pc.GrowTable? ==> s'.table[v] == s'.table[..|s.table|][v];
    }
  }

  lemma {:induction false} InOrderStep(s: State, t: nat, th: Thread)
    requires Inv(s) && InOrder(s) && t in s.threads && th == s.threads[t] && th.Active() && Typed(s, th)
    requires Alone(s) && Alone(StepOf(s, t, th))
    ensures InOrder(StepOf(s, t, th))
  {
    StepDraws(s, t, th);
    DrawsInOrder(s, StepOf(s, t, th), t, th);
  }

  /** Run by run: as long as no two threads are between the two draws at the same time, vertices get their positions as
      indices, so at rest `vertex_table[v.idx]` is `v`. */
  lemma {:induction false} IndexIsPosition(run: seq<State>, widths: seq<nat>, k: nat)
    requires IsRun(run, widths) && k < |run| && forall i | 0 <= i <= k :: Alone(run[i])
    ensures InOrder(run[k])
    ensures Quiescent(run[k]) ==> forall v | 0 <= v < |run[k].table| :: run[k].table[v].idx == v
  {
    if k == 0 {
      assert run[0].table == [];
    } else {
      IndexIsPosition(run, widths, k - 1);
      RunInv(run, widths, k - 1);
      assert StepAt(run, k - 1);
      InOrderNext(run[k - 1], run[k]);
    }
    if Quiescent(run[k]) {
      RunInv(run, widths, k);
      forall v | 0 <= v < |run[k].table| ensures run[k].table[v].idx == v {
        RestVertex(run[k], v);
      }
    }
  }

  lemma {:induction false} InOrderNext(s: State, s': State)
    requires Inv(s) && InOrder(s) && Next(s, s') && Alone(s) && Alone(s')
    ensures InOrder(s')
  {
    var t, a :| Enabled(s, t, a) && s' == Perform(s, t, a);
    match a {
      case Step => InOrderStep(s, t, s.threads[t]);
      case Start(id) =>
        forall u | u in s'.threads ensures DrawOk(s', u) {
          assert DrawOk(s, u);
        }
        if Growing(s) {
          var u :| u in s.threads && s.threads[u].pc.GrowTable?;
          assert s'.threads[u].pc.GrowTable?;
        }
    }
  }

  lemma {:induction false} Extend(run: seq<State>, widths: seq<nat>, t: nat, a: Action) returns (run': seq<State>)
    requires IsRun(run, widths) && Enabled(run[|run| - 1], t, a)
    ensures IsRun(run', widths) && run' == run + [Perform(run[|run| - 1], t, a)]
  {
    var s := Perform(run[|run| - 1], t, a);
    run' := run + [s];
    assert Next(run[|run| - 1], s);
    forall k | 0 <= k < |run'| - 1 ensures StepAt(run', k) {
      if k < |run| - 1 {
        assert StepAt(run, k);
      }
    }
  }

  // ----- Two threads that draw out of order -----

  /** Thread `t` is inserting a key that is not in the tree, and whoever is inside a slot is at another key's leaf. */
  ghost predicate Driving(s: State, t: nat) {
    && t in s.threads && s.threads[t].Active() && At(s.t, |s.t.ws|, Key(s.t.ws, s.threads[t].id)) == Null
    && (s.threads[t].pc.Unlock? ==> s.threads[t].level + 1 < |s.t.ws|)
    && !s.threads[t].pc.GrowTable? && !s.threads[t].pc.SetIdx? && !s.threads[t].pc.LinkLeaf? && !s.threads[t].pc.SetNode?
    && forall u | u in s.threads && u != t && s.threads[u].Critical() ::
         s.threads[u].level + 1 == |s.t.ws| && Key(s.t.ws, s.threads[u].id) != Key(s.t.ws, s.threads[t].id)
  }

  /** Steps left on this level. */
  ghost function Rank(s: State, th: Thread): nat {
    match th.pc
    case Look => if ReadSlot(s.t, th) != Null then 0 else if th.again then 6 else 7
    case Want => 5
    case Recheck => 4
    case MakeNode => 3
    case LinkNode => 2
    case Unlock => 1
    case _ => 0
  }

  /** One step closer to the leaf. */
  ghost predicate Closer(s: State, s': State, t: nat) {
    && t in s.threads && t in s'.threads && s'.threads == s.threads[t := s'.threads[t]] && s'.t.ws == s.t.ws
    && s'.cnt == s.cnt && s'.table == s.table && s'.owners == s.owners && s'.started == s.started
    && s'.threads[t].id == s.threads[t].id && s.threads[t].level <= s'.threads[t].level
    && Driving(s', t)
    && (s'.threads[t].level > s.threads[t].level || Rank(s', s'.threads[t]) < Rank(s, s.threads[t]))
  }

  /** At the leaf level the slot ahead is the one of the key. */
  lemma {:induction false} LeafAhead(s: State, t: nat)
    requires Inv(s) && Driving(s, t)
    ensures StandsOk(s, s.threads[t]) && ReadSlot(s.t, s.threads[t]) == Ahead(s.t, s.threads[t])
    ensures s.threads[t].level + 1 == |s.t.ws| ==> Ahead(s.t, s.threads[t]) == Null
  {
    assert ThreadOk(s, t);
    StandsSlot(s, t);
    PrefixEnds(s.t.ws, s.threads[t].id);
  }

  lemma {:induction false} SlotFree(s: State, t: nat)
    requires Inv(s) && Driving(s, t) && s.threads[t].pc.Want?
    ensures SlotOf(s.t.ws, s.threads[t]) !in s.locks
  {
    var slot := SlotOf(s.t.ws, s.threads[t]);
    assert LockOk(s, slot);
    assert ThreadOk(s, t);
    StandsSlot(s, t);
    if slot in s.locks {
      var u := s.locks[slot];
      assert ThreadOk(s, u);
      StandsSlot(s, u);
      PrefixStep(s.t.ws, s.threads[t].level, s.threads[t].id);
      PrefixStep(s.t.ws, s.threads[u].level, s.threads[u].id);
      PrefixEnds(s.t.ws, s.threads[t].id);
      PrefixEnds(s.t.ws, s.threads[u].id);
      assert false;
    }
  }

  lemma {:induction false} AdvanceLook(s: State, t: nat, th: Thread)
    requires Inv(s) && Driving(s, t) && th == s.threads[t] && Typed(s, th) && th.pc.Look?
    ensures Closer(s, StepOf(s, t, th), t)
  {
    LeafAhead(s, t);
    assert NodeOk(s.t, s.spot, th.level + 1, Prefix(s.t.ws, th.level + 1, th.id));
  }

  lemma {:induction false} AdvanceWant(s: State, t: nat, th: Thread)
    requires Inv(s) && Driving(s, t) && th == s.threads[t] && Typed(s, th) && th.pc.Want?
    ensures Closer(s, StepOf(s, t, th), t)
  {
    SlotFree(s, t);
  }

  lemma {:induction false} RecheckMoves(s: State, t: nat, th: Thread, th': Thread)
    requires Driving(s, t) && th == s.threads[t] && th.pc.Recheck?
    requires th' in {th.(pc := MakeNode), th.(pc := TakeTicket), th.(pc := Unlock)}
    requires th'.pc.Unlock? ==> th.level + 1 < |s.t.ws|
    ensures Closer(s, Move(s, t, th'), t)
  {
  }

  lemma {:induction false} AdvanceRecheck(s: State, t: nat, th: Thread)
    requires Inv(s) && Driving(s, t) && th == s.threads[t] && Typed(s, th) && th.pc.Recheck?
    ensures Closer(s, StepOf(s, t, th), t)
  {
    LeafAhead(s, t);
    RecheckMoves(s, t, th, StepOf(s, t, th).threads[t]);
  }

  lemma {:induction false} AdvanceMake(s: State, t: nat, th: Thread)
    requires Inv(s) && Driving(s, t) && th == s.threads[t] && Typed(s, th) && th.pc.MakeNode?
    ensures Closer(s, StepOf(s, t, th), t)
  {
    AllocKeepsAt(s.t, StepOf(s, t, th).t, s.spot, Nulls(Pow2(s.t.ws[th.level + 1])), |s.t.ws|, Key(s.t.ws, th.id));
  }

  lemma {:induction false} AdvanceLink(s: State, t: nat, th: Thread)
    requires Inv(s) && Driving(s, t) && th == s.threads[t] && Typed(s, th) && th.pc.LinkNode?
    ensures Closer(s, StepOf(s, t, th), t)
  {
    LinkNodeTree(s, StepOf(s, t, th), t, th);
  }

  lemma {:induction false} AdvanceUnlock(s: State, t: nat, th: Thread)
    requires Inv(s) && Driving(s, t) && th == s.threads[t] && Typed(s, th) && th.pc.Unlock?
    ensures Closer(s, StepOf(s, t, th), t)
  {
    LeafAhead(s, t);
  }

  lemma {:induction false} Advance(run: seq<State>, widths: seq<nat>, t: nat) returns (run': seq<State>)
    requires IsRun(run, widths) && Driving(run[|run| - 1], t) && !run[|run| - 1].threads[t].pc.TakeTicket?
    ensures IsRun(run', widths) && run <= run' && Closer(run[|run| - 1], run'[|run'| - 1], t)
  {
    var s := run[|run| - 1];
    var th := s.threads[t];
    RunInv(run, widths, |run| - 1);
    InvTyped(s, t);
    run' := Extend(run, widths, t, Step);
    match th.pc {
      case MakeNode => AdvanceMake(s, t, th);
      case LinkNode => AdvanceLink(s, t, th);
      case Unlock => AdvanceUnlock(s, t, th);
      case Look => AdvanceLook(s, t, th);
      case Want => AdvanceWant(s, t, th);
      case _ => AdvanceRecheck(s, t, th);
    }
  }

  /** Left alone, a thread inserting a new key reaches the point where it draws its index. */
  lemma {:induction false} Drive(run: seq<State>, widths: seq<nat>, t: nat) returns (run': seq<State>)
    requires IsRun(run, widths) && Driving(run[|run| - 1], t)
    ensures IsRun(run', widths) && run <= run'
    ensures var s, s' := run[|run| - 1], run'[|run'| - 1];
            && t in s'.threads && s'.threads == s.threads[t := s'.threads[t]] && s'.t.ws == s.t.ws
            && s'.cnt == s.cnt && s'.table == s.table && s'.started == s.started && s'.threads[t].id == s.threads[t].id
            && s'.threads[t].pc.TakeTicket? && Driving(s', t)
    decreases |run[|run| - 1].t.ws| - run[|run| - 1].threads[t].level,
              Rank(run[|run| - 1], run[|run| - 1].threads[t])
  {
    run' := run;
    if !run[|run| - 1].threads[t].pc.TakeTicket? {
      run' := Advance(run, widths, t);
      RunInv(run', widths, |run'| - 1);
      LeafAhead(run'[|run'| - 1], t);
      run' := Drive(run', widths, t);
    }
  }

  /** One step of a thread between claiming a leaf and linking it, as far as the counters tell. */
  lemma {:induction false} Draw(run: seq<State>, widths: seq<nat>, t: nat) returns (run': seq<State>)
    requires IsRun(run, widths) && t in run[|run| - 1].threads
    requires run[|run| - 1].threads[t].pc.TakeTicket? || run[|run| - 1].threads[t].pc.GrowTable? || run[|run| - 1].threads[t].pc.SetIdx?
    ensures IsRun(run', widths) && run <= run' && t in run'[|run'| - 1].threads
    ensures Draws(run[|run| - 1], run'[|run'| - 1], t, run[|run| - 1].threads[t])
    ensures StaysAtLeaf(run[|run| - 1], run'[|run'| - 1], t)
    ensures run[|run| - 1].threads[t].pc.SetIdx? ==>
              && run'[|run'| - 1].threads[t].pc.LinkLeaf?
              && run[|run| - 1].threads[t].tmp.VertexAt? && run[|run| - 1].threads[t].tmp.v < |run[|run| - 1].table|
  {
    var s := run[|run| - 1];
    RunInv(run, widths, |run| - 1);
    InvTyped(s, t);
    run' := Extend(run, widths, t, Step);
    StepDraws(s, t, s.threads[t]);
    DrawStays(s, t, s.threads[t]);
  }

  /** The thread is still inserting the same id at the same leaf. */
  ghost predicate StaysAtLeaf(s: State, s': State, t: nat) {
    && s'.t.ws == s.t.ws && t in s.threads && t in s'.threads
    && s'.threads[t].level == s.threads[t].level && s'.threads[t].id == s.threads[t].id
  }

  lemma {:induction false} DrawStays(s: State, t: nat, th: Thread)
    requires t in s.threads && th == s.threads[t] && Typed(s, th) && (th.pc.TakeTicket? || th.pc.GrowTable? || th.pc.SetIdx?)
    ensures StaysAtLeaf(s, StepOf(s, t, th), t) && (th.pc.SetIdx? ==> StepOf(s, t, th).threads[t].pc.LinkLeaf?)
  {
    match th.pc {
      case TakeTicket =>
      case GrowTable =>
      case SetIdx =>
    }
  }

  /** From linking the leaf to leaving its slot. */
  ghost predicate Leaving(s: State, th: Thread) {
    th.level + 1 == |s.t.ws| && (th.pc.LinkLeaf? || th.pc.SetNode? || th.pc.Unlock?)
  }

  function AfterLeaf(pc: Pc): Pc {
    match pc
    case LinkLeaf => SetNode
    case SetNode => Unlock
    case _ => Done
  }

  /** One thread moves on; nobody draws. */
  ghost predicate Leaves(s: State, s': State, t: nat) {
    && t in s.threads && t in s'.threads && s'.threads == s.threads[t := s'.threads[t]] && s'.t.ws == s.t.ws
    && s'.threads[t].level == s.threads[t].level && s'.threads[t].pc == AfterLeaf(s.threads[t].pc)
    && |s'.table| == |s.table| && forall v | 0 <= v < |s.table| :: s'.table[v].idx == s.table[v].idx
  }

  lemma {:induction false} LeaveStep(s: State, t: nat, th: Thread)
    requires t in s.threads && th == s.threads[t] && Typed(s, th) && Leaving(s, th)
    ensures Leaves(s, StepOf(s, t, th), t)
  {
    match th.pc {
      case LinkLeaf =>
      case SetNode =>
      case Unlock =>
    }
  }

  lemma {:induction false} Leave(run: seq<State>, widths: seq<nat>, t: nat) returns (run': seq<State>)
    requires IsRun(run, widths) && t in run[|run| - 1].threads && Leaving(run[|run| - 1], run[|run| - 1].threads[t])
    ensures IsRun(run', widths) && run <= run' && Leaves(run[|run| - 1], run'[|run'| - 1], t)
  {
    RunInv(run, widths, |run| - 1);
    InvTyped(run[|run| - 1], t);
    run' := Extend(run, widths, t, Step);
    LeaveStep(run[|run| - 1], t, run[|run| - 1].threads[t]);
  }

  /** A thread that has drawn its index goes on to its end. */
  lemma {:induction false} LeaveForGood(run: seq<State>, widths: seq<nat>, t: nat) returns (run': seq<State>)
    requires IsRun(run, widths) && t in run[|run| - 1].threads
    requires Leaving(run[|run| - 1], run[|run| - 1].threads[t]) && run[|run| - 1].threads[t].pc.LinkLeaf?
    ensures IsRun(run', widths) && run <= run'
    ensures var s, s' := run[|run| - 1], run'[|run'| - 1];
            && t in s'.threads && s'.threads == s.threads[t := s'.threads[t]] && s'.threads[t].pc.Done? && s'.t.ws == s.t.ws
            && |s'.table| == |s.table| && forall v | 0 <= v < |s.table| :: s'.table[v].idx == s.table[v].idx
  {
    run' := Leave(run, widths, t);
    run' := Leave(run', widths, t);
    run' := Leave(run', widths, t);
  }

  lemma {:induction false} DrawOutOfOrder(run: seq<State>, widths: seq<nat>, t: nat, u: nat) returns (run': seq<State>)
    requires IsRun(run, widths) && t != u && t in run[|run| - 1].threads && u in run[|run| - 1].threads
    requires run[|run| - 1].threads[t].pc.TakeTicket? && run[|run| - 1].threads[u].pc.TakeTicket?
    requires run[|run| - 1].cnt == |run[|run| - 1].table|
    ensures IsRun(run', widths) && run <= run'
    ensures var s, n := run'[|run'| - 1], run[|run| - 1].cnt;
            |s.table| == n + 2 && s.table[n].idx == n + 1 && s.table[n + 1].idx == n
    ensures var s, s' := run[|run| - 1], run'[|run'| - 1];
            && StaysAtLeaf(s, s', t) && StaysAtLeaf(s, s', u) && s'.threads == s.threads[t := s'.threads[t]][u := s'.threads[u]]
            && s'.threads[t].pc.LinkLeaf? && s'.threads[u].pc.LinkLeaf?
  {
    run' := Draw(run, widths, t);
    run' := Draw(run', widths, u);
    run' := Draw(run', widths, u);
    run' := Draw(run', widths, u);
    run' := Draw(run', widths, t);
    run' := Draw(run', widths, t);
  }

  /** A thread starts on a new key and reaches its draw, everybody else resting or at the leaf of another key. */
  lemma {:induction false} BeginAndDrive(run: seq<State>, widths: seq<nat>, t: nat, id: nat) returns (run': seq<State>)
    requires IsRun(run, widths) && t in run[|run| - 1].threads && !run[|run| - 1].threads[t].Active()
    requires var s := run[|run| - 1];
             && Key(s.t.ws, id) !in s.started
             && forall u | u in s.threads && u != t && s.threads[u].Critical() ::
                  s.threads[u].level + 1 == |s.t.ws| && Key(s.t.ws, s.threads[u].id) != Key(s.t.ws, id)
    ensures IsRun(run', widths) && run <= run'
    ensures var s, s' := run[|run| - 1], run'[|run'| - 1];
            && t in s'.threads && s'.threads == s.threads[t := s'.threads[t]] && s'.t.ws == s.t.ws
            && s'.cnt == s.cnt && s'.table == s.table && s'.started == s.started[Key(s.t.ws, id) := t]
            && s'.threads[t].pc.TakeTicket? && s'.threads[t].id == id && s'.threads[t].level + 1 == |s.t.ws|
  {
    var s := run[|run| - 1];
    RunInv(run, widths, |run| - 1);
    NewKeyNull(s, Key(s.t.ws, id));
    run' := Extend(run, widths, t, Start(id));
    run' := Drive(run', widths, t);
    RunInv(run', widths, |run'| - 1);
    assert ThreadOk(run'[|run'| - 1], t);
  }

  /** From any state at rest, two threads inserting two new keys can end with two vertices that have each other's index: a
      state at rest where `vertex_table[v.idx]` is not `v`. */
  lemma {:induction false} IndicesCanSwap(run: seq<State>, widths: seq<nat>, t: nat, u: nat, a: nat, b: nat)
    returns (run': seq<State>)
    requires IsRun(run, widths) && Quiescent(run[|run| - 1]) && t != u
    requires t in run[|run| - 1].threads && u in run[|run| - 1].threads
    requires var s := run[|run| - 1];
             && Key(s.t.ws, a) !in s.started && Key(s.t.ws, b) !in s.started && Key(s.t.ws, a) != Key(s.t.ws, b)
    ensures IsRun(run', widths) && run <= run'
    ensures var s, n := run'[|run'| - 1], run[|run| - 1].cnt;
            Quiescent(s) && |s.table| == n + 2 && s.table[n].idx == n + 1 && s.table[n + 1].idx == n
  {
    RunInv(run, widths, |run| - 1);
    RestCounts(run[|run| - 1]);
    run' := BeginAndDrive(run, widths, t, a);
    run' := BeginAndDrive(run', widths, u, b);
    run' := DrawOutOfOrder(run', widths, t, u);
    run' := LeaveForGood(run', widths, t);
    run' := LeaveForGood(run', widths, u);
  }

  // ----- Exactly when positions are kept -----

  /** `vertex_table[v.idx]` is `v` for every vertex. */
  ghost predicate InPlace(s: State) {
    forall v | 0 <= v < |s.table| :: s.table[v].idx == v
  }

  /** Vertices sit at their indices whenever the threads in `tids` are at rest, however their insertions interleaved. */
  ghost predicate AlwaysInPlace(tids: set<nat>, widths: seq<nat>) {
    forall run: seq<State>, k: nat {:trigger InPlace(run[k]), IsRun(run, widths)} |
      IsRun(run, widths) && run[0].threads.Keys == tids && k < |run| && Quiescent(run[k]) :: InPlace(run[k])
  }

  lemma {:induction false} ThreadsFixed(run: seq<State>, widths: seq<nat>, k: nat)
    requires IsRun(run, widths) && k < |run|
    ensures run[k].threads.Keys == run[0].threads.Keys
  {
    if k > 0 {
      ThreadsFixed(run, widths, k - 1);
      RunInv(run, widths, k - 1);
      assert StepAt(run, k - 1);
      ThreadsStep(run[k - 1], run[k]);
    }
  }

  lemma {:induction false} ThreadsStep(s: State, s': State)
    requires Next(s, s')
    ensures s'.threads.Keys == s.threads.Keys
  {
    var t, a :| Enabled(s, t, a) && s' == Perform(s, t, a);
    if a.Step? {
      StepDraws(s, t, s.threads[t]);
    }
  }

  lemma {:induction false} LoneThreadInPlace(run: seq<State>, widths: seq<nat>, k: nat)
    requires IsRun(run, widths) && |run[0].threads.Keys| <= 1 && k < |run| && Quiescent(run[k])
    ensures InPlace(run[k])
  {
    forall i | 0 <= i <= k ensures Alone(run[i]) {
      ThreadsFixed(run, widths, i);
      forall t, u | t in run[i].threads && u in run[i].threads ensures t == u {
        if t != u {
          SubsetSize({t, u}, run[i].threads.Keys);
        }
      }
    }
    IndexIsPosition(run, widths, k);
  }

  lemma {:induction false} LoneKeyInPlace(run: seq<State>, widths: seq<nat>, k: nat)
    requires IsRun(run, widths) && Total(widths) == 0 && k < |run| && Quiescent(run[k])
    ensures InPlace(run[k])
  {
    var s := run[k];
    WidthsFixed(run, widths, k);
    RunInv(run, widths, k);
    AnchorTotal(widths);
    forall x | x in s.started.Keys ensures x in {0} {
      assert StartOk(s, x);
    }
    SubsetSize(s.started.Keys, {0});
    AtRest(run, widths, k);
    forall v | 0 <= v < |s.table| ensures s.table[v].idx == v {
      assert Finished(s, v);
    }
  }

  lemma {:induction false} AnchorTotal(widths: seq<nat>)
    ensures Total([0] + widths) == Total(widths)
  {
    AnchorKeys(widths, |widths|);
  }

  /** With two threads and more than one key the two draws can cross. */
  lemma {:induction false} TwoThreadsCanSwap(tids: set<nat>, widths: seq<nat>, t: nat, u: nat)
    requires widths != [] && Total(widths) > 0 && t in tids && u in tids && t != u
    ensures !AlwaysInPlace(tids, widths)
  {
    var threads := map x | x in tids :: Thread(Idle, 0, 0, 0, false, Null, 0);
    var s := State(Tree([[Null]], NodeAt(0), [0] + widths), map[0 := (0, 0)], map[], map[], 0, [], [], threads, map[], {});
    var run := [s];
    KeyBelowTotal(widths, 0);
    KeyBelowTotal(widths, 1);
    run := IndicesCanSwap(run, widths, t, u, 0, 1);
    assert !InPlace(run[|run| - 1]);
    assert run[0].threads.Keys == tids;
  }

  /** `vertex_table[v.idx]` is `v` in every state at rest of every run if and only if at most one thread inserts or there is
      only one key. */
  lemma {:induction false} InPlaceIffOneThreadOrOneKey(tids: set<nat>, widths: seq<nat>)
    requires widths != []
    ensures AlwaysInPlace(tids, widths) <==> |tids| <= 1 || Total(widths) == 0
  {
    if |tids| <= 1 || Total(widths) == 0 {
      forall run: seq<State>, k: nat |
        IsRun(run, widths) && run[0].threads.Keys == tids && k < |run| && Quiescent(run[k]) ensures InPlace(run[k])
      {
        if |tids| <= 1 {
          LoneThreadInPlace(run, widths, k);
        } else {
          LoneKeyInPlace(run, widths, k);
        }
      }
    } else {
      var t :| t in tids;
      assert |tids - {t}| > 0;
      var u :| u in tids - {t};
      TwoThreadsCanSwap(tids, widths, t, u);
    }
  }

  lemma {:induction false} NewKeyNull(s: State, x: nat)
    requires Inv(s) && x !in s.started
    ensures At(s.t, |s.t.ws|, x) == Null
  {
    assert LeafOk(s, x);
    forall v | 0 <= v < |s.table| ensures s.table[v].key in s.started {
      assert VertexOk(s, v);
    }
  }
}
