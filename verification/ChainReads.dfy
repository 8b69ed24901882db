/** Which version a reader's walk along the chain pins, and what a new version is stamped with.

    A walk starts at the current version and stops at the newest live version that has its buffer and a stamp not above the
    reader's timestamp; it leaves without a pin only if there is none. Without readers no more than two versions stay alive. */
module ChainReads {
  import opened VersionChain

  /** A read at `t` may use this version. */
  predicate Suits(node: Node, t: int) {
    node.alive && node.buffer && node.stamp <= t
  }

  /** No version newer than `v` is usable at `t`. */
  ghost predicate NoneNewer(nodes: seq<Node>, v: int, t: int) {
    forall w | 0 <= w < |nodes| && w > v :: !Suits(nodes[w], t)
  }

  ghost predicate ReadOk(s: State, th: Thread) {
    && (th.HoldsPin() ==> th.v < |s.nodes| && s.nodes[th.v].stamp <= th.t)
    && (th.pc.Walking? ==> NoneNewer(s.nodes, if th.at.At? then th.at.id else -1, th.t))
    && (th.pc.Pinned? ==> NoneNewer(s.nodes, th.v, th.t))
    && (th.pc.Linking? || th.pc.Linked? ==> th.d < |s.nodes| && s.nodes[th.d].stamp == th.t)
    && (th.pc.Published? ==> s.cur < |s.nodes| && s.nodes[s.cur].stamp == th.t)
  }

  ghost predicate ReadsOk(s: State) {
    forall t {:trigger ReadOk(s, s.threads[t])} | t in s.threads :: ReadOk(s, s.threads[t])
  }

  // ----- The neighbour of a version in the chain -----

  lemma {:induction false} ReachesLater(nodes: seq<Node>, v: nat, a: nat, w: nat)
    requires ReachesPrev(nodes, v, a) && ReachesPrev(nodes, v, w) && w <= a
    ensures ReachesPrev(nodes, a, w)
    decreases v
  {
    ReachesBelow(nodes, v, a);
    if v != a {
      ReachesLater(nodes, nodes[v].prev.id, a, w);
    }
  }

  lemma {:induction false} ReachesBelow(nodes: seq<Node>, v: nat, w: nat)
    requires ReachesPrev(nodes, v, w)
    ensures w <= v
    decreases v
  {
    if v != w {
      ReachesBelow(nodes, nodes[v].prev.id, w);
    }
  }

  /** No live version lies between a version and the one before it in the chain. */
  lemma {:induction false} NoneBetween(nodes: seq<Node>, end: nat, a: nat, w: nat)
    requires ChainOk(nodes, {}, end) && a < |nodes| && w < a && nodes[a].alive && nodes[w].alive
    ensures nodes[a].prev.At? && w <= nodes[a].prev.id
  {
    ChainReaches(nodes, end, a);
    ChainReaches(nodes, end, w);
    ReachesLater(nodes, end, a, w);
    ReachesBelow(nodes, nodes[a].prev.id, w);
  }

  lemma {:induction false} NoneAfterEnd(nodes: seq<Node>, end: nat, w: nat)
    requires ChainOk(nodes, {}, end) && w < |nodes| && nodes[w].alive
    ensures w <= end
  {
    ChainReaches(nodes, end, w);
    ReachesBelow(nodes, end, w);
  }

  // ----- Steps -----

  /** Stamps never change. */
  ghost predicate StampsKept(nodes: seq<Node>, nodes': seq<Node>) {
    |nodes'| >= |nodes| && forall v | 0 <= v < |nodes| :: nodes'[v].stamp == nodes[v].stamp
  }

  lemma {:induction false} HolderKeepsStamps(s: State, t: nat, th: Thread)
    requires Derefs(s, th)
    ensures StampsKept(s.nodes, StepOf(s, t, th).nodes)
  {
  }

  lemma {:induction false} OtherReadsKept(s: State, s': State, t: nat)
    requires Inv(s) && ReadsOk(s) && t in s.threads && (s.lock == Open || s.lock == HeldBy(t))
    requires t in s'.threads && s'.threads == s.threads[t := s'.threads[t]] && StampsKept(s.nodes, s'.nodes)
    requires ReadOk(s', s'.threads[t])
    ensures ReadsOk(s')
  {
    forall q | q in s'.threads ensures ReadOk(s', s'.threads[q]) {
      if q != t {
        assert ReadOk(s, s.threads[q]);
        assert s.threads[q].HoldsLock() <==> s.lock == HeldBy(q);
      }
    }
  }

  lemma {:induction false} BeginWalk(s: State, t: nat, stamp: int)
    requires Inv(s) && ReadsOk(s) && Enabled(s, t, StartRead(stamp))
    ensures ReadsOk(Perform(s, t, StartRead(stamp)))
  {
    var s' := Perform(s, t, StartRead(stamp));
    forall w | 0 <= w < |s.nodes| && w > s.cur ensures !Suits(s.nodes[w], stamp) {
      if s.nodes[w].alive {
        NoneAfterEnd(s.nodes, s.cur, w);
      }
    }
    OtherReadsKept(s, s', t);
  }

  /** The version the walk stands at is not usable: nor is any down to the one before it. */
  lemma {:induction false} WalkOn(nodes: seq<Node>, end: nat, a: nat, t: int)
    requires ChainOk(nodes, {}, end) && a < |nodes| && nodes[a].alive && !Suits(nodes[a], t) && NoneNewer(nodes, a, t)
    ensures NoneNewer(nodes, if nodes[a].prev.At? then nodes[a].prev.id else -1, t)
  {
    var p := if nodes[a].prev.At? then nodes[a].prev.id as int else -1;
    forall w | 0 <= w < |nodes| && w > p ensures !Suits(nodes[w], t) {
      if w < a && nodes[w].alive {
        NoneBetween(nodes, end, a, w);
      }
    }
  }

  lemma {:induction false} WalkingOk(s: State, t: nat, th: Thread)
    requires Inv(s) && t in s.threads && th == s.threads[t] && th.pc.Walking? && Derefs(s, th) && ReadOk(s, th)
    ensures ReadOk(StepOf(s, t, th), StepOf(s, t, th).threads[t])
  {
    assert s.lock == HeldBy(t) by {
      assert th.HoldsLock();
    }
    if th.at.At? {
      if Suits(s.nodes[th.at.id], th.t) {
        PinKeepsNewer(s.nodes, th.at.id, th.t);
      } else {
        WalkOn(s.nodes, s.cur, th.at.id, th.t);
      }
    }
  }

  lemma {:induction false} PinKeepsNewer(nodes: seq<Node>, v: nat, t: int)
    requires v < |nodes| && NoneNewer(nodes, v, t)
    ensures NoneNewer(nodes[v := nodes[v].(pins := nodes[v].pins + 1)], v, t)
  {
  }

  lemma {:induction false} HolderReads(s: State, t: nat, th: Thread)
    requires Inv(s) && ReadsOk(s) && t in s.threads && th == s.threads[t] && th.HoldsLock() && Derefs(s, th)
    ensures ReadsOk(StepOf(s, t, th))
  {
    var s' := StepOf(s, t, th);
    assert s.lock == HeldBy(t);
    assert ReadOk(s, th);
    HolderKeepsStamps(s, t, th);
    if th.pc.Walking? {
      WalkingOk(s, t, th);
    } else {
      PlainStep(s, t, th);
    }
    OtherReadsKept(s, s', t);
  }

  lemma {:induction false} PlainStep(s: State, t: nat, th: Thread)
    requires Inv(s) && t in s.threads && th == s.threads[t] && th.HoldsLock() && Derefs(s, th) && ReadOk(s, th)
    requires !th.pc.Walking?
    ensures StepOf(s, t, th).threads == s.threads[t := StepOf(s, t, th).threads[t]]
    ensures ReadOk(StepOf(s, t, th), StepOf(s, t, th).threads[t])
  {
    assert ThreadOk(s, th);
  }

  lemma {:induction false} NextReads(s: State, s': State)
    requires Inv(s) && ReadsOk(s) && Next(s, s')
    ensures ReadsOk(s')
  {
    var t: nat, a: Action :|
      Enabled(s, t, a) && (a.Step? ==> Derefs(s, s.threads[t])) && s' == Perform(s, t, a);
    match a {
      case Step => HolderReads(s, t, s.threads[t]);
      case StartRead(stamp) => BeginWalk(s, t, stamp);
      case StartReturn =>
        assert ReadOk(s, s.threads[t]);
        OtherReadsKept(s, s', t);
      case StartExpand(_) => OtherReadsKept(s, s', t);
    }
  }

  lemma {:induction false} RunReads(run: seq<State>, k: nat)
    requires IsRun(run) && k < |run|
    ensures ReadsOk(run[k])
  {
    if k > 0 {
      RunReads(run, k - 1);
      RunInv(run, k - 1);
      assert StepAt(run, k - 1);
      NextReads(run[k - 1], run[k]);
    }
  }

  // ----- What readers and expanders can rely on -----

  /** In every run: a pinned version is not newer than its reader's timestamp, and when the pin was taken every newer version
      was dead, had no buffer or was stamped later. A version under construction or just published carries its expander's
      stamp. */
  lemma {:induction false} PinIsNewestUsable(run: seq<State>, k: nat, t: nat)
    requires IsRun(run) && k < |run| && t in run[k].threads
    ensures var s, th := run[k], run[k].threads[t];
            && (th.HoldsPin() ==> th.v < |s.nodes| && s.nodes[th.v].stamp <= th.t)
            && (th.pc.Pinned? ==> Suits(s.nodes[th.v], th.t) && NoneNewer(s.nodes, th.v, th.t))
            && (th.pc.Linking? || th.pc.Linked? ==> th.d < |s.nodes| && s.nodes[th.d].stamp == th.t)
            && (th.pc.Published? ==> s.cur < |s.nodes| && s.nodes[s.cur].stamp == th.t)
  {
    RunReads(run, k);
    RunInv(run, k);
    assert ReadOk(run[k], run[k].threads[t]);
    assert ThreadOk(run[k], run[k].threads[t]);
  }

  /** A walk gives up only if no version at all is usable. */
  lemma {:induction false} FailedWalkFoundNone(run: seq<State>, k: nat, t: nat)
    requires IsRun(run) && k + 1 < |run| && t in run[k].threads && t in run[k + 1].threads
    requires run[k].threads[t].pc.Walking? && run[k + 1].threads[t].pc.Leaving?
    ensures NoneNewer(run[k].nodes, -1, run[k].threads[t].t) && run[k + 1].nodes == run[k].nodes
  {
    RunReads(run, k);
    RunInv(run, k);
    assert StepAt(run, k);
    WalkEnds(run[k], run[k + 1], t);
  }

  lemma {:induction false} WalkEnds(s: State, s': State, t: nat)
    requires Inv(s) && ReadsOk(s) && Next(s, s') && t in s.threads && t in s'.threads
    requires s.threads[t].pc.Walking? && s'.threads[t].pc.Leaving?
    ensures NoneNewer(s.nodes, -1, s.threads[t].t) && s'.nodes == s.nodes
  {
    var q: nat, a: Action :|
      Enabled(s, q, a) && (a.Step? ==> Derefs(s, s.threads[q])) && s' == Perform(s, q, a);
    assert ReadOk(s, s.threads[t]);
    MovesOne(s, q, a);
    assert q == t;
  }

  /** A step moves one thread, and sets its timestamp only when it starts a read or an expansion. */
  lemma {:induction false} MovesOne(s: State, q: nat, a: Action)
    requires Enabled(s, q, a) && (a.Step? ==> Derefs(s, s.threads[q]))
    ensures var s' := Perform(s, q, a);
            && q in s'.threads && s'.threads == s.threads[q := s'.threads[q]]
            && s'.threads[q].t == match a
                                  case StartRead(x) => x
                                  case StartExpand(x) => x
                                  case _ => s.threads[q].t
  {
  }

  ghost predicate Active(s: State, t: nat) {
    t in s.threads && !s.threads[t].pc.Idle?
  }

  lemma {:induction false} TimeKept(s: State, s': State, t: nat)
    requires Next(s, s') && Active(s, t)
    ensures t in s'.threads && s'.threads[t].t == s.threads[t].t
  {
    var q: nat, a: Action :|
      Enabled(s, q, a) && (a.Step? ==> Derefs(s, s.threads[q])) && s' == Perform(s, q, a);
    MovesOne(s, q, a);
  }

  /** The timestamp a thread set out with is the one it works with until it is done. */
  lemma {:induction false} TimeForGood(run: seq<State>, i: nat, k: nat, t: nat, a: Action)
    requires IsRun(run) && i < k < |run| && (a.StartRead? || a.StartExpand?)
    requires Enabled(run[i], t, a) && run[i + 1] == Perform(run[i], t, a)
    requires forall m {:trigger Active(run[m], t)} | i < m < k :: Active(run[m], t)
    ensures t in run[k].threads && run[k].threads[t].t == (if a.StartRead? then a.t else a.stamp)
    decreases k
  {
    if k == i + 1 {
      MovesOne(run[i], t, a);
    } else {
      TimeForGood(run, i, k - 1, t, a);
      assert Active(run[k - 1], t) && StepAt(run, k - 1);
      TimeKept(run[k - 1], run[k], t);
    }
  }

  /** A read at `x` that is still going on: if it holds a pin, the pinned version is not newer than `x`, and the pin it has
      just taken is on the newest usable one. */
  lemma {:induction false} ReadHonoursTime(run: seq<State>, i: nat, k: nat, t: nat, x: int)
    requires IsRun(run) && i < k < |run| && Enabled(run[i], t, StartRead(x)) && run[i + 1] == Perform(run[i], t, StartRead(x))
    requires forall m {:trigger Active(run[m], t)} | i < m < k :: Active(run[m], t)
    ensures t in run[k].threads
    ensures var s, th := run[k], run[k].threads[t];
            && (th.HoldsPin() ==> th.v < |s.nodes| && s.nodes[th.v].stamp <= x)
            && (th.pc.Pinned? ==> Suits(s.nodes[th.v], x) && NoneNewer(s.nodes, th.v, x))
  {
    TimeForGood(run, i, k, t, StartRead(x));
    PinIsNewestUsable(run, k, t);
  }

  /** The version an expansion started with stamp `x` builds and publishes is stamped `x`. */
  lemma {:induction false} ExpansionStamps(run: seq<State>, i: nat, k: nat, t: nat, x: int)
    requires IsRun(run) && i < k < |run| && Enabled(run[i], t, StartExpand(x))
    requires run[i + 1] == Perform(run[i], t, StartExpand(x))
    requires forall m {:trigger Active(run[m], t)} | i < m < k :: Active(run[m], t)
    ensures t in run[k].threads
    ensures var s, th := run[k], run[k].threads[t];
            && (th.pc.Linking? || th.pc.Linked? ==> th.d < |s.nodes| && s.nodes[th.d].stamp == x)
            && (th.pc.Published? ==> s.cur < |s.nodes| && s.nodes[s.cur].stamp == x)
  {
    TimeForGood(run, i, k, t, StartExpand(x));
    PinIsNewestUsable(run, k, t);
  }

  // ----- Reclamation without readers -----

  /** No thread reads or is on its way to or from a read. */
  ghost predicate NoReaders(s: State) {
    forall t {:trigger s.threads[t].pc} | t in s.threads ::
      var pc := s.threads[t].pc;
      !pc.Walking? && !pc.Pinned? && !pc.Reading? && !pc.Returning? && !pc.Unpinned?
  }

  ghost predicate LiveWithin(nodes: seq<Node>, few: set<nat>) {
    forall v | 0 <= v < |nodes| && nodes[v].alive :: v in few
  }

  ghost function Before(nodes: seq<Node>, v: nat): set<nat> {
    if v < |nodes| && nodes[v].prev.At? then {nodes[v].prev.id} else {}
  }

  /** Which versions may be alive at each point of an expansion. */
  ghost predicate Lean(s: State, th: Thread) {
    match th.pc
    case Linking => LiveWithin(s.nodes, {s.cur, th.d} + Before(s.nodes, s.cur))
    case Linked => LiveWithin(s.nodes, {s.cur, th.d} + Before(s.nodes, s.cur))
    case Published => LiveWithin(s.nodes, {s.cur, th.v} + Before(s.nodes, th.v)) && Before(s.nodes, s.cur) == {th.v}
    case Freed => LiveWithin(s.nodes, {s.cur, th.v} + Before(s.nodes, th.v)) && Before(s.nodes, s.cur) == {th.v}
    case DelStart => LiveWithin(s.nodes, {s.cur, th.v, th.d}) && Before(s.nodes, s.cur) == {th.v} && Before(s.nodes, th.v) == {th.d}
    case DelFreed => LiveWithin(s.nodes, {s.cur, th.v, th.d}) && Before(s.nodes, s.cur) == {th.v} && Before(s.nodes, th.v) == {th.d}
    case DelUnlinkedNext => LiveWithin(s.nodes, {s.cur, th.v, th.d}) && Before(s.nodes, s.cur) == {th.v}
    case DelUnlinked => LiveWithin(s.nodes, {s.cur, th.v, th.d}) && Before(s.nodes, s.cur) == {th.v}
    case _ => LiveWithin(s.nodes, {s.cur} + Before(s.nodes, s.cur))
  }

  ghost predicate LeanState(s: State) {
    if s.lock.HeldBy? then s.lock.tid in s.threads && Lean(s, s.threads[s.lock.tid])
    else LiveWithin(s.nodes, {s.cur} + Before(s.nodes, s.cur))
  }

  lemma {:induction false} NobodyPins(s: State, v: nat)
    requires Inv(s) && NoReaders(s) && v < |s.nodes|
    ensures s.nodes[v].pins == 0
  {
    assert s.nodes[v].pins == |PinnedBy(s.threads, v)|;
    forall t | t in s.threads ensures !s.threads[t].HoldsPin() {
      assert !s.threads[t].pc.Pinned?;
    }
    assert PinnedBy(s.threads, v) == {};
  }

  lemma {:induction false} LeanBuild(s: State, t: nat, th: Thread)
    requires Inv(s) && NoReaders(s) && t in s.threads && th == s.threads[t] && Derefs(s, th) && Lean(s, th)
    requires th.pc.Expanding? || th.pc.Linking? || th.pc.Linked?
    ensures Lean(StepOf(s, t, th), StepOf(s, t, th).threads[t])
  {
    assert ThreadOk(s, th);
    assert s.lock == HeldBy(t) by {
      assert th.HoldsLock();
    }
    if th.pc.Linked? {
      assert LinksOk(s.nodes, {}, th.d, th.d);
    }
  }

  lemma {:induction false} LeanFree(s: State, t: nat, th: Thread)
    requires Inv(s) && NoReaders(s) && t in s.threads && th == s.threads[t] && Derefs(s, th) && Lean(s, th)
    requires th.pc.Published? || th.pc.Freed?
    ensures Lean(StepOf(s, t, th), StepOf(s, t, th).threads[t])
  {
    assert ThreadOk(s, th);
    NobodyPins(s, th.v);
    if th.pc.Freed? && s.nodes[th.v].prev.At? {
      NobodyPins(s, s.nodes[th.v].prev.id);
    }
  }

  lemma {:induction false} LeanUnlink(s: State, t: nat, th: Thread)
    requires Inv(s) && NoReaders(s) && t in s.threads && th == s.threads[t] && Derefs(s, th) && Lean(s, th)
    requires th.pc.DelStart? || th.pc.DelFreed?
    ensures Lean(StepOf(s, t, th), StepOf(s, t, th).threads[t])
  {
    assert ThreadOk(s, th);
    assert s.lock == HeldBy(t) by {
      assert th.HoldsLock();
    }
    assert LinksOk(s.nodes, {}, s.cur, s.cur);
    assert th.v in Before(s.nodes, s.cur) && th.d in Before(s.nodes, th.v);
    assert LinksOk(s.nodes, {}, s.cur, th.v);
  }

  lemma {:induction false} LeanDelete(s: State, t: nat, th: Thread)
    requires Inv(s) && NoReaders(s) && t in s.threads && th == s.threads[t] && Derefs(s, th) && Lean(s, th)
    requires th.pc.DelUnlinkedNext? || th.pc.DelUnlinked?
    ensures Lean(StepOf(s, t, th), StepOf(s, t, th).threads[t])
  {
    assert ThreadOk(s, th);
  }

  lemma {:induction false} LeanStep(s: State, t: nat, th: Thread)
    requires Inv(s) && NoReaders(s) && t in s.threads && th == s.threads[t] && th.HoldsLock() && Derefs(s, th) && Lean(s, th)
    ensures var s' := StepOf(s, t, th);
            t in s'.threads && (if th.pc.Leaving? then s'.lock == Open else s'.lock == s.lock) && Lean(s', s'.threads[t])
  {
    match th.pc {
      case Leaving =>
      case Published => LeanFree(s, t, th);
      case Freed => LeanFree(s, t, th);
      case DelStart => LeanUnlink(s, t, th);
      case DelFreed => LeanUnlink(s, t, th);
      case DelUnlinkedNext => LeanDelete(s, t, th);
      case DelUnlinked => LeanDelete(s, t, th);
      case _ => LeanBuild(s, t, th);
    }
  }

  lemma {:induction false} LeanNext(s: State, s': State)
    requires Inv(s) && Next(s, s') && NoReaders(s) && NoReaders(s') && LeanState(s)
    ensures LeanState(s')
  {
    var t: nat, a: Action :|
      Enabled(s, t, a) && (a.Step? ==> Derefs(s, s.threads[t])) && s' == Perform(s, t, a);
    if a.Step? {
      assert s.lock == HeldBy(t);
      LeanStep(s, t, s.threads[t]);
    } else {
      assert t in s'.threads;
      assert !s'.threads[t].pc.Walking? && !s'.threads[t].pc.Returning?;
    }
  }

  /** As long as nobody reads, expansions leave nothing behind: whenever the lock is free, only the current version and the
      one it replaced are alive. */
  lemma {:induction false} TwoVersionsWithoutReaders(run: seq<State>, k: nat)
    requires IsRun(run) && k < |run| && forall m {:trigger NoReaders(run[m])} | 0 <= m <= k :: NoReaders(run[m])
    ensures LeanState(run[k])
    ensures run[k].lock == Open ==> LiveWithin(run[k].nodes, {run[k].cur} + Before(run[k].nodes, run[k].cur))
  {
    if k > 0 {
      TwoVersionsWithoutReaders(run, k - 1);
      RunInv(run, k - 1);
      assert StepAt(run, k - 1);
      assert NoReaders(run[k - 1]) && NoReaders(run[k]);
      LeanNext(run[k - 1], run[k]);
    }
  }
}
