/** Readers and expanders of one vertex in mixed-workload mode.

    Obsolete versions stay chained behind the current one while readers have them pinned. Readers pin and unpin under the
    vertex lock and read without it; an insert that overflows expands under the lock, frees the buffer of the version it
    replaces and deletes the version before that; whoever drops the last pin of an obsolete version deletes it. Every
    pointer write is a step of its own. Objects are numbered and numbers are never reused, so a dangling pointer is a
    number whose object is no longer alive. The pointer an insert loads before it takes the lock is not part of this
    model. */
module VersionChain {

  datatype Ptr = Null | At(id: nat)

  /** One WeightedEdgeArray as far as its lifetime goes. `buffer` says whether `edge` is non-null. */
  datatype Node = Node(prev: Ptr, next: Ptr, alive: bool, buffer: bool, pins: int, stamp: int)

  datatype Pc =
    | Idle
    | Walking | Pinned | Reading | Returning | Unpinned
    | Expanding | Linking | Linked | Published | Freed
    | DelStart | DelFreed | DelUnlinkedNext | DelUnlinked
    | Leaving

  /** A thread: program counter, read timestamp, walk pointer, its version, a version under construction or deletion. */
  datatype Thread = Thread(pc: Pc, t: int, at: Ptr, v: nat, d: nat)
  {
    predicate HoldsLock() {
      !pc.Idle? && !pc.Reading?
    }

    /** Whether the thread's read count is included in `threads_read` of version `v`. */
    predicate HoldsPin() {
      pc.Pinned? || pc.Reading? || pc.Returning?
    }

    predicate Deletes() {
      pc.DelStart? || pc.DelFreed? || pc.DelUnlinkedNext? || pc.DelUnlinked?
    }
  }

  datatype Lock = Open | HeldBy(tid: nat)

  datatype State = State(nodes: seq<Node>, cur: nat, lock: Lock, threads: map<nat, Thread>)

  datatype Action = StartRead(t: int) | StartReturn | StartExpand(stamp: int) | Step

  predicate Initial(s: State) {
    && s.nodes == [Node(Null, Null, true, true, 0, 0)] && s.cur == 0 && s.lock == Open
    && (forall t | t in s.threads :: s.threads[t].pc == Idle)
  }

  predicate Enabled(s: State, t: nat, a: Action) {
    && t in s.threads
    && match a
       case StartRead(_) => s.threads[t].pc.Idle? && s.lock == Open
       case StartExpand(_) => s.threads[t].pc.Idle? && s.lock == Open
       case StartReturn => s.threads[t].pc.Reading? && s.lock == Open
       case Step => s.threads[t].HoldsLock()
  }

  /** A thread's dereferences in its next step stay inside the allocated objects. */
  ghost predicate Derefs(s: State, th: Thread) {
    match th.pc
    case Walking => th.at.At? ==> th.at.id < |s.nodes| && s.nodes[th.at.id].alive
    case Returning => th.v < |s.nodes| && s.nodes[th.v].alive
    case Unpinned => th.v < |s.nodes| && s.nodes[th.v].alive
    case Expanding => th.v < |s.nodes| && s.nodes[th.v].alive
    case Linking => th.v < |s.nodes| && s.nodes[th.v].alive
    case Published => th.v < |s.nodes| && s.nodes[th.v].alive
    case Freed =>
      && th.v < |s.nodes| && s.nodes[th.v].alive
      && (s.nodes[th.v].prev.At? ==> s.nodes[th.v].prev.id < |s.nodes| && s.nodes[s.nodes[th.v].prev.id].alive)
    case DelStart => th.d < |s.nodes| && s.nodes[th.d].alive
    case DelFreed =>
      && th.d < |s.nodes| && s.nodes[th.d].alive
      && (s.nodes[th.d].next.At? ==> s.nodes[th.d].next.id < |s.nodes| && s.nodes[s.nodes[th.d].next.id].alive)
    case DelUnlinkedNext =>
      && th.d < |s.nodes| && s.nodes[th.d].alive
      && (s.nodes[th.d].prev.At? ==> s.nodes[th.d].prev.id < |s.nodes| && s.nodes[s.nodes[th.d].prev.id].alive)
    case DelUnlinked => th.d < |s.nodes| && s.nodes[th.d].alive
    case _ => true
  }

  function Move(s: State, t: nat, th: Thread): State {
    s.(threads := s.threads[t := th])
  }

  function Put(s: State, v: nat, node: Node): State
    requires v < |s.nodes|
  {
    s.(nodes := s.nodes[v := node])
  }

  /** The step of a lock holder. */
  function StepOf(s: State, t: nat, th: Thread): State
    requires Derefs(s, th)
  {
    match th.pc
    case Walking =>
      if th.at.Null? then Move(s, t, th.(pc := Leaving))
      else
        var node := s.nodes[th.at.id];
        if node.stamp > th.t || !node.buffer then Move(s, t, th.(at := node.prev))
        else Move(Put(s, th.at.id, node.(pins := node.pins + 1)), t, th.(pc := Pinned, v := th.at.id))
    case Pinned => Move(s, t, th.(pc := Reading)).(lock := Open)
    case Returning =>
      var node := s.nodes[th.v];
      Move(Put(s, th.v, node.(pins := node.pins - 1)), t, th.(pc := Unpinned))
    case Unpinned =>
      if s.nodes[th.v].pins == 0 && th.v != s.cur then Move(s, t, th.(pc := DelStart, d := th.v))
      else Move(s, t, th.(pc := Leaving))
    case Expanding =>
      Move(s.(nodes := s.nodes + [Node(At(th.v), Null, true, true, 0, th.t)]), t, th.(pc := Linking, d := |s.nodes|))
    case Linking => Move(Put(s, th.v, s.nodes[th.v].(next := At(th.d))), t, th.(pc := Linked))
    case Linked => Move(s.(cur := th.d), t, th.(pc := Published))
    case Published =>
      if s.nodes[th.v].pins == 0 then Move(Put(s, th.v, s.nodes[th.v].(buffer := false)), t, th.(pc := Freed))
      else Move(s, t, th.(pc := Leaving))
    case Freed =>
      var p := s.nodes[th.v].prev;
      if p.At? && s.nodes[p.id].pins == 0 then Move(s, t, th.(pc := DelStart, d := p.id))
      else Move(s, t, th.(pc := Leaving))
    case DelStart => Move(Put(s, th.d, s.nodes[th.d].(buffer := false)), t, th.(pc := DelFreed))
    case DelFreed =>
      var x := s.nodes[th.d].next;
      var s' := Move(s, t, th.(pc := DelUnlinkedNext));
      if x.At? then Put(s', x.id, s.nodes[x.id].(prev := s.nodes[th.d].prev)) else s'
    case DelUnlinkedNext =>
      var p := s.nodes[th.d].prev;
      var s' := Move(s, t, th.(pc := DelUnlinked));
      if p.At? then Put(s', p.id, s.nodes[p.id].(next := s.nodes[th.d].next)) else s'
    case DelUnlinked => Move(Put(s, th.d, s.nodes[th.d].(alive := false)), t, th.(pc := Leaving))
    case Leaving => Move(s, t, th.(pc := Idle)).(lock := Open)
    case _ => s
  }

  function Perform(s: State, t: nat, a: Action): State
    requires Enabled(s, t, a) && (a.Step? ==> Derefs(s, s.threads[t]))
  {
    var th := s.threads[t];
    match a
    case StartRead(stamp) => Move(s, t, th.(pc := Walking, t := stamp, at := At(s.cur))).(lock := HeldBy(t))
    case StartExpand(stamp) => Move(s, t, th.(pc := Expanding, t := stamp, v := s.cur)).(lock := HeldBy(t))
    case StartReturn => Move(s, t, th.(pc := Returning)).(lock := HeldBy(t))
    case Step => StepOf(s, t, th)
  }

  // ----- The invariant -----

  ghost function PinnedBy(threads: map<nat, Thread>, v: nat): set<nat> {
    set t | t in threads && threads[t].HoldsPin() && threads[t].v == v
  }

  /** The links of one version point at live neighbours that point back; `end` is the newest version and `ex` are
      versions not (or no longer) in the chain. */
  ghost predicate LinksOk(nodes: seq<Node>, ex: set<nat>, end: nat, v: nat)
    requires v < |nodes|
  {
    && (nodes[v].prev.At? ==>
          var p := nodes[v].prev.id;
          p < v && nodes[p].alive && p !in ex && nodes[p].next == At(v))
    && (if v == end then nodes[v].next == Null
        else
          && nodes[v].next.At?
          && var x := nodes[v].next.id;
             v < x < |nodes| && nodes[x].alive && x !in ex && nodes[x].prev == At(v))
  }

  ghost predicate ChainOk(nodes: seq<Node>, ex: set<nat>, end: nat) {
    && end < |nodes| && nodes[end].alive && end !in ex
    && (forall v {:trigger LinksOk(nodes, ex, end, v)} | 0 <= v < |nodes| && nodes[v].alive && v !in ex ::
          LinksOk(nodes, ex, end, v))
  }

  /** The chain with the half-finished unlinking of `d` taken back. */
  function Relinked(nodes: seq<Node>, d: nat): seq<Node> {
    if d < |nodes| && nodes[d].next.At? && nodes[d].next.id < |nodes|
    then nodes[nodes[d].next.id := nodes[nodes[d].next.id].(prev := At(d))]
    else nodes
  }

  /** What the lock holder's position says about the chain. */
  ghost predicate PhaseOk(s: State, th: Thread) {
    match th.pc
    case Linking =>
      && ChainOk(s.nodes, {th.d}, s.cur) && th.v == s.cur && th.d < |s.nodes| && th.v < th.d
      && s.nodes[th.d].alive && s.nodes[th.d].prev == At(s.cur) && s.nodes[th.d].next == Null
    case Linked => ChainOk(s.nodes, {}, th.d) && th.v == s.cur && s.nodes[th.d].prev == At(s.cur)
    case DelUnlinkedNext =>
      && ChainOk(Relinked(s.nodes, th.d), {}, s.cur) && th.d < |s.nodes| && th.d != s.cur && s.nodes[th.d].alive
      && s.nodes[th.d].next.At? && s.nodes[th.d].next.id < |s.nodes|
      && s.nodes[s.nodes[th.d].next.id].prev == s.nodes[th.d].prev
    case DelUnlinked => ChainOk(s.nodes, {th.d}, s.cur) && th.d < |s.nodes| && s.nodes[th.d].alive
    case _ => ChainOk(s.nodes, {}, s.cur)
  }

  ghost predicate ThreadOk(s: State, th: Thread) {
    && (th.HoldsPin() ==> th.v < |s.nodes| && s.nodes[th.v].alive && s.nodes[th.v].buffer)
    && (th.pc.Walking? && th.at.At? ==> th.at.id < |s.nodes| && s.nodes[th.at.id].alive)
    && (th.pc.Unpinned? ==> th.v < |s.nodes| && s.nodes[th.v].alive && s.nodes[th.v].buffer)
    && (th.pc.Published? ==> th.v < |s.nodes| && s.nodes[th.v].alive && s.nodes[th.v].buffer && th.v != s.cur)
    && (th.pc.Freed? ==> th.v < |s.nodes| && s.nodes[th.v].alive && th.v != s.cur)
    && (th.pc.Expanding? ==> th.v == s.cur)
    && (th.Deletes() ==> th.d < |s.nodes| && s.nodes[th.d].alive && s.nodes[th.d].pins == 0 && th.d != s.cur)
    && (th.pc.Linking? || th.pc.Linked? ==>
          th.d < |s.nodes| && s.nodes[th.d].buffer && s.nodes[th.d].pins == 0 && th.d != s.cur)
  }

  ghost predicate ThreadsOk(s: State) {
    forall t {:trigger ThreadOk(s, s.threads[t])} | t in s.threads :: ThreadOk(s, s.threads[t])
  }

  ghost predicate PinsOk(nodes: seq<Node>, threads: map<nat, Thread>) {
    forall v {:trigger PinnedBy(threads, v)} | 0 <= v < |nodes| :: nodes[v].pins == |PinnedBy(threads, v)|
  }

  ghost predicate LockOk(lock: Lock, threads: map<nat, Thread>) {
    && (lock.HeldBy? ==> lock.tid in threads)
    && (forall t {:trigger threads[t].HoldsLock()} | t in threads :: threads[t].HoldsLock() <==> lock == HeldBy(t))
  }

  /** An obsolete version keeps its edge buffer exactly while a reader has it pinned. */
  ghost predicate BufferOk(node: Node) {
    node.buffer <==> node.pins > 0
  }

  /** The version the lock holder has not finished with. */
  ghost function Busy(th: Thread): set<nat> {
    if th.pc.Unpinned? || th.pc.Published? then {th.v}
    else if th.pc.Linking? || th.pc.Linked? || th.Deletes() then {th.d}
    else {}
  }

  ghost predicate BuffersOk(nodes: seq<Node>, cur: nat, busy: set<nat>) {
    && cur < |nodes| && nodes[cur].buffer
    && (forall v {:trigger BufferOk(nodes[v])} | 0 <= v < |nodes| && nodes[v].alive && v != cur && v !in busy ::
          BufferOk(nodes[v]))
  }

  ghost predicate Inv(s: State) {
    && LockOk(s.lock, s.threads) && ThreadsOk(s) && PinsOk(s.nodes, s.threads)
    && (if s.lock.HeldBy? then
          && PhaseOk(s, s.threads[s.lock.tid])
          && BuffersOk(s.nodes, s.cur, Busy(s.threads[s.lock.tid]))
        else
          ChainOk(s.nodes, {}, s.cur) && BuffersOk(s.nodes, s.cur, {}))
  }

  lemma {:induction false} InitialInv(s: State)
    requires Initial(s)
    ensures Inv(s)
  {
    assert LinksOk(s.nodes, {}, 0, 0);
    forall v | 0 <= v < |s.nodes| ensures s.nodes[v].pins == |PinnedBy(s.threads, v)| {
      assert PinnedBy(s.threads, v) == {};
    }
  }

  /** Memory safety of one step: whatever a lock holder dereferences next is alive. */
  lemma {:induction false} DerefsSafe(s: State, t: nat)
    requires Inv(s) && t in s.threads && s.threads[t].HoldsLock()
    ensures Derefs(s, s.threads[t])
  {
    var th := s.threads[t];
    assert ThreadOk(s, th);
    assert s.lock == HeldBy(t);
    if th.pc.Freed? {
      assert LinksOk(s.nodes, {}, s.cur, th.v);
    } else if th.pc.DelFreed? {
      assert LinksOk(s.nodes, {}, s.cur, th.d);
    } else if th.pc.DelUnlinkedNext? {
      var r := Relinked(s.nodes, th.d);
      assert LinksOk(r, {}, s.cur, th.d);
    }
  }

  // ----- Steps -----

  /** Thread `t` moves without gaining or losing a pin: all read counts stand. */
  lemma {:induction false} PinsKept(nodes: seq<Node>, threads: map<nat, Thread>, t: nat, th': Thread)
    requires PinsOk(nodes, threads) && t in threads
    requires threads[t].HoldsPin() == th'.HoldsPin() && (th'.HoldsPin() ==> th'.v == threads[t].v)
    ensures PinsOk(nodes, threads[t := th'])
  {
    forall v | 0 <= v < |nodes| ensures nodes[v].pins == |PinnedBy(threads[t := th'], v)| {
      assert PinnedBy(threads[t := th'], v) == PinnedBy(threads, v);
    }
  }

  lemma {:induction false} PinGained(nodes: seq<Node>, threads: map<nat, Thread>, t: nat, th': Thread)
    requires PinsOk(nodes, threads) && t in threads && !threads[t].HoldsPin() && th'.HoldsPin() && th'.v < |nodes|
    ensures PinsOk(nodes[th'.v := nodes[th'.v].(pins := nodes[th'.v].pins + 1)], threads[t := th'])
  {
    var nodes' := nodes[th'.v := nodes[th'.v].(pins := nodes[th'.v].pins + 1)];
    forall v | 0 <= v < |nodes| ensures nodes'[v].pins == |PinnedBy(threads[t := th'], v)| {
      if v == th'.v {
        assert PinnedBy(threads[t := th'], v) == PinnedBy(threads, v) + {t};
      } else {
        assert PinnedBy(threads[t := th'], v) == PinnedBy(threads, v);
      }
    }
  }

  lemma {:induction false} PinLost(nodes: seq<Node>, threads: map<nat, Thread>, t: nat, th': Thread)
    requires PinsOk(nodes, threads) && t in threads && threads[t].HoldsPin() && !th'.HoldsPin() && threads[t].v < |nodes|
    ensures var v := threads[t].v; PinsOk(nodes[v := nodes[v].(pins := nodes[v].pins - 1)], threads[t := th'])
    ensures nodes[threads[t].v].pins > 0
  {
    var u := threads[t].v;
    assert t in PinnedBy(threads, u);
    var nodes' := nodes[u := nodes[u].(pins := nodes[u].pins - 1)];
    forall v | 0 <= v < |nodes| ensures nodes'[v].pins == |PinnedBy(threads[t := th'], v)| {
      if v == u {
        assert PinnedBy(threads[t := th'], v) == PinnedBy(threads, v) - {t};
      } else {
        assert PinnedBy(threads[t := th'], v) == PinnedBy(threads, v);
      }
    }
  }

  /** A version with a zero read count has no reader. */
  lemma {:induction false} NoPin(nodes: seq<Node>, threads: map<nat, Thread>, v: nat, q: nat)
    requires PinsOk(nodes, threads) && v < |nodes| && nodes[v].pins == 0 && q in threads && threads[q].v == v
    ensures !threads[q].HoldsPin()
  {
    assert PinnedBy(threads, v) == {};
    assert q !in PinnedBy(threads, v);
  }

  ghost predicate SameLinks(a: Node, b: Node) {
    a.prev == b.prev && a.next == b.next && a.alive == b.alive
  }

  lemma {:induction false} ChainSame(nodes: seq<Node>, nodes': seq<Node>, ex: set<nat>, end: nat)
    requires ChainOk(nodes, ex, end) && |nodes'| == |nodes|
    requires forall v | 0 <= v < |nodes| :: SameLinks(nodes[v], nodes'[v])
    ensures ChainOk(nodes', ex, end)
  {
    forall v | 0 <= v < |nodes'| && nodes'[v].alive && v !in ex ensures LinksOk(nodes', ex, end, v) {
      assert SameLinks(nodes[v], nodes'[v]);
      assert LinksOk(nodes, ex, end, v);
    }
  }

  /** No reader loses its buffer. */
  ghost predicate ReadersSafe(nodes: seq<Node>, nodes': seq<Node>) {
    && |nodes'| >= |nodes|
    && (forall v | 0 <= v < |nodes| && nodes[v].pins != 0 && nodes[v].alive && nodes[v].buffer ::
          nodes'[v].alive && nodes'[v].buffer)
  }

  /** Threads without the lock are idle or reading, so a step that keeps readers safe keeps their positions sound. */
  lemma {:induction false} OthersKept(s: State, s': State, t: nat)
    requires LockOk(s.lock, s.threads) && ThreadsOk(s) && PinsOk(s.nodes, s.threads)
    requires t in s.threads && (s.lock == Open || s.lock == HeldBy(t))
    requires t in s'.threads && s'.threads == s.threads[t := s'.threads[t]]
    requires ReadersSafe(s.nodes, s'.nodes) && ThreadOk(s', s'.threads[t])
    ensures ThreadsOk(s')
  {
    forall q | q in s'.threads ensures ThreadOk(s', s'.threads[q]) {
      if q != t {
        assert !s.threads[q].HoldsLock();
        assert ThreadOk(s, s.threads[q]);
        var v := s.threads[q].v;
        if s.threads[q].HoldsPin() && s.nodes[v].pins == 0 {
          NoPin(s.nodes, s.threads, v, q);
        }
      }
    }
  }

  /** The lock holder moves on and keeps the lock. */
  lemma {:induction false} StillHeld(s: State, t: nat, th': Thread)
    requires LockOk(s.lock, s.threads) && s.lock == HeldBy(t) && th'.HoldsLock()
    ensures LockOk(s.lock, s.threads[t := th'])
  {
  }

  lemma {:induction false} Released(s: State, t: nat, th': Thread)
    requires LockOk(s.lock, s.threads) && s.lock == HeldBy(t) && !th'.HoldsLock()
    ensures LockOk(Open, s.threads[t := th'])
  {
    var threads' := s.threads[t := th'];
    forall q | q in threads' ensures !threads'[q].HoldsLock() {
      if q != t {
        assert s.threads[q].HoldsLock() <==> s.lock == HeldBy(q);
      }
    }
  }

  lemma {:induction false} Acquired(s: State, t: nat, th': Thread)
    requires LockOk(s.lock, s.threads) && s.lock == Open && t in s.threads && th'.HoldsLock()
    ensures LockOk(HeldBy(t), s.threads[t := th'])
  {
    forall q | q in s.threads ensures !s.threads[q].HoldsLock() {
      assert s.threads[q].HoldsLock() <==> s.lock == HeldBy(q);
    }
  }

  /** The lock holder takes a step that changes no read count: assemble the invariant from its parts. */
  lemma {:induction false} HolderStep(s: State, t: nat, nodes': seq<Node>, cur': nat, th': Thread)
    requires Inv(s) && t in s.threads && s.lock == HeldBy(t) && th'.HoldsLock()
    requires s.threads[t].HoldsPin() == th'.HoldsPin() && (th'.HoldsPin() ==> th'.v == s.threads[t].v)
    requires PinsOk(nodes', s.threads) && ReadersSafe(s.nodes, nodes')
    requires var s' := State(nodes', cur', s.lock, s.threads[t := th']);
             ThreadOk(s', th') && PhaseOk(s', th') && BuffersOk(nodes', cur', Busy(th'))
    ensures Inv(State(nodes', cur', s.lock, s.threads[t := th']))
  {
    var s' := State(nodes', cur', s.lock, s.threads[t := th']);
    StillHeld(s, t, th');
    PinsKept(nodes', s.threads, t, th');
    OthersKept(s, s', t);
  }

  lemma {:induction false} AcquireStep(s: State, t: nat, th': Thread)
    requires Inv(s) && t in s.threads && s.lock == Open
    requires
      || (s.threads[t].pc.Idle? && th'.pc.Walking? && th'.at == At(s.cur))
      || (s.threads[t].pc.Idle? && th'.pc.Expanding? && th'.v == s.cur)
      || (s.threads[t].pc.Reading? && th' == s.threads[t].(pc := Returning))
    ensures Inv(State(s.nodes, s.cur, HeldBy(t), s.threads[t := th']))
  {
    var s' := State(s.nodes, s.cur, HeldBy(t), s.threads[t := th']);
    assert ThreadOk(s, s.threads[t]);
    Acquired(s, t, th');
    PinsKept(s.nodes, s.threads, t, th');
    OthersKept(s, s', t);
  }

  lemma {:induction false} ReleaseStep(s: State, t: nat, th: Thread)
    requires Inv(s) && t in s.threads && th == s.threads[t] && (th.pc.Pinned? || th.pc.Leaving?)
    ensures Inv(StepOf(s, t, th))
  {
    assert s.lock == HeldBy(t) by {
      assert th.HoldsLock();
    }
    var s' := StepOf(s, t, th);
    assert ThreadOk(s, th);
    Released(s, t, s'.threads[t]);
    PinsKept(s.nodes, s.threads, t, s'.threads[t]);
    OthersKept(s, s', t);
  }

  lemma {:induction false} WalkStep(s: State, t: nat, th: Thread)
    requires Inv(s) && t in s.threads && th == s.threads[t] && th.pc.Walking? && Derefs(s, th) && s.lock == HeldBy(t)
    requires th.at.Null? || s.nodes[th.at.id].stamp > th.t || !s.nodes[th.at.id].buffer
    ensures Inv(StepOf(s, t, th))
  {
    var th' := StepOf(s, t, th).threads[t];
    if th.at.At? {
      assert LinksOk(s.nodes, {}, s.cur, th.at.id);
    }
    HolderStep(s, t, s.nodes, s.cur, th');
  }

  lemma {:induction false} PinStep(s: State, t: nat, th: Thread)
    requires Inv(s) && t in s.threads && th == s.threads[t] && th.pc.Walking? && Derefs(s, th) && s.lock == HeldBy(t)
    requires th.at.At? && s.nodes[th.at.id].stamp <= th.t && s.nodes[th.at.id].buffer
    ensures Inv(StepOf(s, t, th))
  {
    var s' := StepOf(s, t, th);
    var v := th.at.id;
    assert s.nodes[v].pins == |PinnedBy(s.threads, v)|;
    StillHeld(s, t, s'.threads[t]);
    PinGained(s.nodes, s.threads, t, s'.threads[t]);
    OthersKept(s, s', t);
    ChainSame(s.nodes, s'.nodes, {}, s.cur);
    forall w | 0 <= w < |s'.nodes| && s'.nodes[w].alive && w != s.cur ensures BufferOk(s'.nodes[w]) {
      assert BufferOk(s.nodes[w]);
    }
  }

  lemma {:induction false} UnpinStep(s: State, t: nat, th: Thread)
    requires Inv(s) && t in s.threads && th == s.threads[t] && th.pc.Returning? && Derefs(s, th) && s.lock == HeldBy(t)
    ensures Inv(StepOf(s, t, th))
  {
    var s' := StepOf(s, t, th);
    var v := th.v;
    assert ThreadOk(s, th);
    StillHeld(s, t, s'.threads[t]);
    PinLost(s.nodes, s.threads, t, s'.threads[t]);
    OthersKept(s, s', t);
    ChainSame(s.nodes, s'.nodes, {}, s.cur);
    forall w | 0 <= w < |s'.nodes| && s'.nodes[w].alive && w != s.cur && w != v ensures BufferOk(s'.nodes[w]) {
      assert BufferOk(s.nodes[w]);
    }
  }

  /** After dropping its pin a reader deletes the version if it was the last one and the version is obsolete. */
  lemma {:induction false} LastPinStep(s: State, t: nat, th: Thread)
    requires Inv(s) && t in s.threads && th == s.threads[t] && th.pc.Unpinned? && Derefs(s, th) && s.lock == HeldBy(t)
    ensures Inv(StepOf(s, t, th))
  {
    var th' := StepOf(s, t, th).threads[t];
    assert ThreadOk(s, th);
    assert s.nodes[th.v].pins == |PinnedBy(s.threads, th.v)|;
    forall w | 0 <= w < |s.nodes| && s.nodes[w].alive && w != s.cur && w !in Busy(th') ensures BufferOk(s.nodes[w]) {
      if w != th.v {
        assert BufferOk(s.nodes[w]);
      }
    }
    HolderStep(s, t, s.nodes, s.cur, th');
  }

  // ----- Expansion -----

  /** The new array is allocated behind the current one; nobody can reach it yet. */
  lemma {:induction false} LinkBehind(s: State, node: Node)
    requires Inv(s) && ChainOk(s.nodes, {}, s.cur) && node == Node(At(s.cur), Null, true, true, 0, node.stamp)
    ensures ChainOk(s.nodes + [node], {|s.nodes|}, s.cur) && PinsOk(s.nodes + [node], s.threads)
  {
    var nodes' := s.nodes + [node];
    var n := |s.nodes|;
    forall v | 0 <= v < |nodes'| && nodes'[v].alive && v !in {n} ensures LinksOk(nodes', {n}, s.cur, v) {
      assert LinksOk(s.nodes, {}, s.cur, v);
    }
    forall v | 0 <= v < |nodes'| ensures nodes'[v].pins == |PinnedBy(s.threads, v)| {
      if v < n {
        assert s.nodes[v].pins == |PinnedBy(s.threads, v)|;
      } else {
        forall q | q in s.threads && s.threads[q].HoldsPin() ensures s.threads[q].v < n {
          assert ThreadOk(s, s.threads[q]);
        }
        assert PinnedBy(s.threads, v) == {};
      }
    }
  }

  lemma {:induction false} AllocateStep(s: State, t: nat, th: Thread)
    requires Inv(s) && t in s.threads && th == s.threads[t] && th.pc.Expanding? && Derefs(s, th) && s.lock == HeldBy(t)
    ensures Inv(StepOf(s, t, th))
  {
    var s' := StepOf(s, t, th);
    assert ThreadOk(s, th);
    LinkBehind(s, s'.nodes[|s.nodes|]);
    forall w | 0 <= w < |s'.nodes| && s'.nodes[w].alive && w != s.cur && w !in {|s.nodes|} ensures BufferOk(s'.nodes[w]) {
      assert BufferOk(s.nodes[w]);
    }
    HolderStep(s, t, s'.nodes, s.cur, s'.threads[t]);
  }

  /** `next->next_arr = new_array` completes the link; the chain now ends at the new array. */
  lemma {:induction false} LinkForward(nodes: seq<Node>, cur: nat, n: nat, nodes': seq<Node>)
    requires ChainOk(nodes, {n}, cur) && n < |nodes| && cur < n && nodes[n].alive
    requires nodes[n].prev == At(cur) && nodes[n].next == Null
    requires nodes' == nodes[cur := nodes[cur].(next := At(n))]
    ensures ChainOk(nodes', {}, n)
  {
    assert LinksOk(nodes, {n}, cur, cur);
    forall v | 0 <= v < |nodes'| && nodes'[v].alive ensures LinksOk(nodes', {}, n, v) {
      if v != n {
        assert LinksOk(nodes, {n}, cur, v);
      }
    }
  }

  lemma {:induction false} LinkStep(s: State, t: nat, th: Thread)
    requires Inv(s) && t in s.threads && th == s.threads[t] && th.pc.Linking? && Derefs(s, th) && s.lock == HeldBy(t)
    ensures Inv(StepOf(s, t, th))
  {
    var s' := StepOf(s, t, th);
    assert ThreadOk(s, th);
    LinkForward(s.nodes, s.cur, th.d, s'.nodes);
    forall v | 0 <= v < |s'.nodes| ensures s'.nodes[v].pins == |PinnedBy(s.threads, v)| {
      assert s.nodes[v].pins == |PinnedBy(s.threads, v)|;
    }
    forall w | 0 <= w < |s'.nodes| && s'.nodes[w].alive && w != s.cur && w !in {th.d} ensures BufferOk(s'.nodes[w]) {
      assert BufferOk(s.nodes[w]);
    }
    HolderStep(s, t, s'.nodes, s.cur, s'.threads[t]);
  }

  lemma {:induction false} PublishStep(s: State, t: nat, th: Thread)
    requires Inv(s) && t in s.threads && th == s.threads[t] && th.pc.Linked? && s.lock == HeldBy(t)
    ensures Inv(StepOf(s, t, th))
  {
    var s' := StepOf(s, t, th);
    assert ThreadOk(s, th);
    assert LinksOk(s.nodes, {}, th.d, th.d);
    forall w | 0 <= w < |s.nodes| && s.nodes[w].alive && w != th.d && w !in {th.v} ensures BufferOk(s.nodes[w]) {
      assert BufferOk(s.nodes[w]);
    }
    HolderStep(s, t, s.nodes, th.d, s'.threads[t]);
  }

  /** Clearing the buffer of an unpinned version. */
  lemma {:induction false} FreeBuffer(s: State, v: nat, nodes': seq<Node>)
    requires Inv(s) && v < |s.nodes| && v != s.cur && s.nodes[v].pins == 0 && ChainOk(s.nodes, {}, s.cur)
    requires nodes' == s.nodes[v := s.nodes[v].(buffer := false)]
    ensures ChainOk(nodes', {}, s.cur) && PinsOk(nodes', s.threads) && ReadersSafe(s.nodes, nodes') && BufferOk(nodes'[v])
  {
    ChainSame(s.nodes, nodes', {}, s.cur);
    forall w | 0 <= w < |nodes'| ensures nodes'[w].pins == |PinnedBy(s.threads, w)| {
      assert s.nodes[w].pins == |PinnedBy(s.threads, w)|;
    }
  }

  /** The replaced version's buffer is freed if nobody reads it. */
  lemma {:induction false} FreeStep(s: State, t: nat, th: Thread)
    requires Inv(s) && t in s.threads && th == s.threads[t] && th.pc.Published? && Derefs(s, th) && s.lock == HeldBy(t)
    ensures Inv(StepOf(s, t, th))
  {
    var s' := StepOf(s, t, th);
    assert ThreadOk(s, th);
    assert s.nodes[th.v].pins == |PinnedBy(s.threads, th.v)|;
    if s.nodes[th.v].pins == 0 {
      FreeBuffer(s, th.v, s'.nodes);
    }
    forall w | 0 <= w < |s'.nodes| && s'.nodes[w].alive && w != s.cur ensures BufferOk(s'.nodes[w]) {
      if w != th.v {
        assert BufferOk(s.nodes[w]);
      }
    }
    HolderStep(s, t, s'.nodes, s.cur, s'.threads[t]);
  }

  /** The version before the replaced one is deleted if nobody reads it. */
  lemma {:induction false} ReclaimStep(s: State, t: nat, th: Thread)
    requires Inv(s) && t in s.threads && th == s.threads[t] && th.pc.Freed? && Derefs(s, th) && s.lock == HeldBy(t)
    ensures Inv(StepOf(s, t, th))
  {
    var s' := StepOf(s, t, th);
    assert ThreadOk(s, th);
    assert LinksOk(s.nodes, {}, s.cur, th.v);
    assert LinksOk(s.nodes, {}, s.cur, s.cur);
    forall w | 0 <= w < |s.nodes| && s.nodes[w].alive && w != s.cur && w !in Busy(s'.threads[t]) ensures BufferOk(s.nodes[w]) {
      assert BufferOk(s.nodes[w]);
    }
    HolderStep(s, t, s.nodes, s.cur, s'.threads[t]);
  }

  // ----- The destructor -----

  lemma {:induction false} DestroyStep(s: State, t: nat, th: Thread)
    requires Inv(s) && t in s.threads && th == s.threads[t] && th.pc.DelStart? && Derefs(s, th) && s.lock == HeldBy(t)
    ensures Inv(StepOf(s, t, th))
  {
    var s' := StepOf(s, t, th);
    assert ThreadOk(s, th);
    FreeBuffer(s, th.d, s'.nodes);
    forall w | 0 <= w < |s'.nodes| && s'.nodes[w].alive && w != s.cur && w !in {th.d} ensures BufferOk(s'.nodes[w]) {
      assert BufferOk(s.nodes[w]);
    }
    HolderStep(s, t, s'.nodes, s.cur, s'.threads[t]);
  }

  lemma {:induction false} UnlinkNextStep(s: State, t: nat, th: Thread)
    requires Inv(s) && t in s.threads && th == s.threads[t] && th.pc.DelFreed? && Derefs(s, th) && s.lock == HeldBy(t)
    ensures Inv(StepOf(s, t, th))
  {
    var s' := StepOf(s, t, th);
    assert ThreadOk(s, th);
    assert LinksOk(s.nodes, {}, s.cur, th.d);
    assert Relinked(s'.nodes, th.d) == s.nodes;
    forall v | 0 <= v < |s'.nodes| ensures s'.nodes[v].pins == |PinnedBy(s.threads, v)| {
      assert s.nodes[v].pins == |PinnedBy(s.threads, v)|;
    }
    forall w | 0 <= w < |s'.nodes| && s'.nodes[w].alive && w != s.cur && w !in {th.d} ensures BufferOk(s'.nodes[w]) {
      assert BufferOk(s.nodes[w]);
    }
    HolderStep(s, t, s'.nodes, s.cur, s'.threads[t]);
  }

  /** Both neighbours now bypass `d`. */
  lemma {:induction false} Bypassed(nodes: seq<Node>, d: nat, cur: nat, nodes': seq<Node>)
    requires d < |nodes| && d != cur && nodes[d].alive && nodes[d].next.At? && nodes[d].next.id < |nodes|
    requires ChainOk(Relinked(nodes, d), {}, cur) && nodes[nodes[d].next.id].prev == nodes[d].prev
    requires nodes[d].prev.At? ==> nodes[d].prev.id < |nodes|
    requires nodes' == if nodes[d].prev.At?
                       then nodes[nodes[d].prev.id := nodes[nodes[d].prev.id].(next := nodes[d].next)] else nodes
    ensures ChainOk(nodes', {d}, cur)
  {
    var r := Relinked(nodes, d);
    assert LinksOk(r, {}, cur, d);
    var x := nodes[d].next.id;
    if nodes[d].prev.At? {
      assert LinksOk(r, {}, cur, nodes[d].prev.id);
    }
    assert LinksOk(r, {}, cur, x);
    forall v | 0 <= v < |nodes'| && nodes'[v].alive && v !in {d} ensures LinksOk(nodes', {d}, cur, v) {
      assert LinksOk(r, {}, cur, v);
    }
  }

  lemma {:induction false} UnlinkPrevStep(s: State, t: nat, th: Thread)
    requires Inv(s) && t in s.threads && th == s.threads[t] && th.pc.DelUnlinkedNext? && Derefs(s, th) && s.lock == HeldBy(t)
    ensures Inv(StepOf(s, t, th))
  {
    var s' := StepOf(s, t, th);
    assert ThreadOk(s, th);
    assert LinksOk(Relinked(s.nodes, th.d), {}, s.cur, th.d);
    Bypassed(s.nodes, th.d, s.cur, s'.nodes);
    forall v | 0 <= v < |s'.nodes| ensures s'.nodes[v].pins == |PinnedBy(s.threads, v)| {
      assert s.nodes[v].pins == |PinnedBy(s.threads, v)|;
    }
    forall w | 0 <= w < |s'.nodes| && s'.nodes[w].alive && w != s.cur && w !in {th.d} ensures BufferOk(s'.nodes[w]) {
      assert BufferOk(s.nodes[w]);
    }
    HolderStep(s, t, s'.nodes, s.cur, s'.threads[t]);
  }

  lemma {:induction false} DeallocateStep(s: State, t: nat, th: Thread)
    requires Inv(s) && t in s.threads && th == s.threads[t] && th.pc.DelUnlinked? && Derefs(s, th) && s.lock == HeldBy(t)
    ensures Inv(StepOf(s, t, th))
  {
    var s' := StepOf(s, t, th);
    assert ThreadOk(s, th);
    forall v | 0 <= v < |s'.nodes| && s'.nodes[v].alive ensures LinksOk(s'.nodes, {}, s.cur, v) {
      assert LinksOk(s.nodes, {th.d}, s.cur, v);
    }
    forall v | 0 <= v < |s'.nodes| ensures s'.nodes[v].pins == |PinnedBy(s.threads, v)| {
      assert s.nodes[v].pins == |PinnedBy(s.threads, v)|;
    }
    forall w | 0 <= w < |s'.nodes| && s'.nodes[w].alive && w != s.cur ensures BufferOk(s'.nodes[w]) {
      assert BufferOk(s.nodes[w]);
    }
    HolderStep(s, t, s'.nodes, s.cur, s'.threads[t]);
  }

  // ----- Every step, every run -----

  lemma {:induction false} HolderSteps(s: State, t: nat, th: Thread)
    requires Inv(s) && t in s.threads && th == s.threads[t] && th.HoldsLock() && Derefs(s, th)
    ensures Inv(StepOf(s, t, th))
  {
    assert s.lock == HeldBy(t);
    match th.pc {
      case Walking =>
        if th.at.Null? || s.nodes[th.at.id].stamp > th.t || !s.nodes[th.at.id].buffer {
          WalkStep(s, t, th);
        } else {
          PinStep(s, t, th);
        }
      case Pinned => ReleaseStep(s, t, th);
      case Leaving => ReleaseStep(s, t, th);
      case Returning => UnpinStep(s, t, th);
      case Unpinned => LastPinStep(s, t, th);
      case Expanding => AllocateStep(s, t, th);
      case Linking => LinkStep(s, t, th);
      case Linked => PublishStep(s, t, th);
      case Published => FreeStep(s, t, th);
      case Freed => ReclaimStep(s, t, th);
      case DelStart => DestroyStep(s, t, th);
      case DelFreed => UnlinkNextStep(s, t, th);
      case DelUnlinkedNext => UnlinkPrevStep(s, t, th);
      case DelUnlinked => DeallocateStep(s, t, th);
      case _ =>
    }
  }

  ghost predicate Next(s: State, s': State) {
    exists t: nat, a: Action ::
      Enabled(s, t, a) && (a.Step? ==> Derefs(s, s.threads[t])) && s' == Perform(s, t, a)
  }

  lemma {:induction false} NextInv(s: State, s': State)
    requires Inv(s) && Next(s, s')
    ensures Inv(s')
  {
    var t: nat, a: Action :|
      Enabled(s, t, a) && (a.Step? ==> Derefs(s, s.threads[t])) && s' == Perform(s, t, a);
    if a.Step? {
      HolderSteps(s, t, s.threads[t]);
    } else {
      AcquireStep(s, t, s'.threads[t]);
    }
  }

  ghost predicate StepAt(run: seq<State>, k: nat)
    requires k < |run| - 1
  {
    Next(run[k], run[k + 1])
  }

  ghost predicate IsRun(run: seq<State>) {
    && run != [] && Initial(run[0])
    && forall k {:trigger StepAt(run, k)} | 0 <= k < |run| - 1 :: StepAt(run, k)
  }

  lemma {:induction false} RunInv(run: seq<State>, k: nat)
    requires IsRun(run) && k < |run|
    ensures Inv(run[k])
  {
    if k == 0 {
      InitialInv(run[0]);
    } else {
      RunInv(run, k - 1);
      assert StepAt(run, k - 1);
      NextInv(run[k - 1], run[k]);
    }
  }

  // ----- What the invariant says -----

  /** In every interleaving of readers and expanders: a pinned version is alive with its buffer; whatever a thread touches
      next is alive, so in particular nothing is deleted twice; a version under deletion is obsolete and unread. */
  lemma {:induction false} PinnedVersionsStayAlive(run: seq<State>, k: nat, t: nat)
    requires IsRun(run) && k < |run| && t in run[k].threads
    ensures var s, th := run[k], run[k].threads[t];
            && (th.HoldsPin() ==> th.v < |s.nodes| && s.nodes[th.v].alive && s.nodes[th.v].buffer && s.nodes[th.v].pins > 0)
            && (th.HoldsLock() ==> Derefs(s, th))
            && (th.Deletes() ==> th.d < |s.nodes| && s.nodes[th.d].alive && s.nodes[th.d].pins == 0 && th.d != s.cur)
  {
    RunInv(run, k);
    var s, th := run[k], run[k].threads[t];
    assert ThreadOk(s, th);
    if th.HoldsLock() {
      DerefsSafe(s, t);
    }
    if th.HoldsPin() {
      assert t in PinnedBy(s.threads, th.v);
    }
  }

  /** Following `next` from live version `v` arrives at `end`, through live versions only. */
  ghost predicate ReachesNext(nodes: seq<Node>, v: nat, end: nat)
    decreases |nodes| - v
  {
    && v < |nodes| && nodes[v].alive
    && (v == end ||
        (nodes[v].next.At? && v < nodes[v].next.id < |nodes| && ReachesNext(nodes, nodes[v].next.id, end)))
  }

  /** Following `prev` from live version `v`, as every read does from the current one, comes past `w`. */
  ghost predicate ReachesPrev(nodes: seq<Node>, v: nat, w: nat)
    decreases v
  {
    && v < |nodes| && nodes[v].alive
    && (v == w || (nodes[v].prev.At? && nodes[v].prev.id < v && ReachesPrev(nodes, nodes[v].prev.id, w)))
  }

  lemma {:induction false} OneMorePrev(nodes: seq<Node>, v: nat, x: nat, w: nat)
    requires ReachesPrev(nodes, v, x) && x < |nodes| && nodes[x].prev == At(w) && w < x && nodes[w].alive
    ensures ReachesPrev(nodes, v, w)
    decreases v
  {
    if v != x {
      OneMorePrev(nodes, nodes[v].prev.id, x, w);
    }
  }

  lemma {:induction false} ChainReaches(nodes: seq<Node>, end: nat, v: nat)
    requires ChainOk(nodes, {}, end) && v < |nodes| && nodes[v].alive
    ensures ReachesNext(nodes, v, end) && ReachesPrev(nodes, end, v)
    decreases |nodes| - v
  {
    assert LinksOk(nodes, {}, end, v);
    if v != end {
      ChainReaches(nodes, end, nodes[v].next.id);
      OneMorePrev(nodes, end, nodes[v].next.id, v);
    }
  }

  /** Whenever the lock is free, the live versions form one doubly linked list: the current version is reached from each of
      them along `next`, and each of them from the current version along `prev`. Every live read count is the number of
      its readers, and an obsolete version keeps its buffer exactly while it is read. */
  lemma {:induction false} ChainConsistent(run: seq<State>, k: nat, v: nat)
    requires IsRun(run) && k < |run| && run[k].lock == Open
    requires v < |run[k].nodes| && run[k].nodes[v].alive
    ensures LinksOk(run[k].nodes, {}, run[k].cur, v)
    ensures ReachesNext(run[k].nodes, v, run[k].cur) && ReachesPrev(run[k].nodes, run[k].cur, v)
    ensures run[k].nodes[v].pins == |PinnedBy(run[k].threads, v)|
    ensures run[k].nodes[v].buffer <==> v == run[k].cur || run[k].nodes[v].pins > 0
  {
    RunInv(run, k);
    var s := run[k];
    ChainReaches(s.nodes, s.cur, v);
    if v != s.cur {
      assert BufferOk(s.nodes[v]);
    }
    assert s.nodes[v].pins == |PinnedBy(s.threads, v)|;
  }

  lemma {:induction false} StaysDeleted(s: State, s': State, v: nat)
    requires Inv(s) && Next(s, s') && v < |s.nodes| && !s.nodes[v].alive
    ensures v < |s'.nodes| && !s'.nodes[v].alive
  {
  }

  /** A deleted version is gone for good: no thread deletes, pins or reaches it again. */
  lemma {:induction false} DeletedOnce(run: seq<State>, i: nat, k: nat, v: nat, t: nat)
    requires IsRun(run) && i <= k < |run| && v < |run[i].nodes| && !run[i].nodes[v].alive && t in run[k].threads
    ensures v < |run[k].nodes| && !run[k].nodes[v].alive && v != run[k].cur
    ensures run[k].threads[t].Deletes() ==> run[k].threads[t].d != v
    ensures run[k].threads[t].HoldsPin() ==> run[k].threads[t].v != v
  {
    StillDeleted(run, i, k, v);
    RunInv(run, k);
    assert ThreadOk(run[k], run[k].threads[t]);
    CurrentAlive(run[k]);
  }

  lemma {:induction false} CurrentAlive(s: State)
    requires Inv(s)
    ensures s.cur < |s.nodes| && s.nodes[s.cur].alive
  {
    if s.lock.HeldBy? {
      var th := s.threads[s.lock.tid];
      if th.pc.Linked? {
        assert LinksOk(s.nodes, {}, th.d, th.d);
      }
    }
  }

  lemma {:induction false} StillDeleted(run: seq<State>, i: nat, k: nat, v: nat)
    requires IsRun(run) && i <= k < |run| && v < |run[i].nodes| && !run[i].nodes[v].alive
    ensures v < |run[k].nodes| && !run[k].nodes[v].alive
    decreases k
  {
    if i < k {
      StillDeleted(run, i, k - 1, v);
      RunInv(run, k - 1);
      assert StepAt(run, k - 1);
      StaysDeleted(run[k - 1], run[k], v);
    }
  }
}
