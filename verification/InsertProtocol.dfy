/** Any number of threads running `RadixGraph::Insert` on one vertex, one shared-memory access at a time.

    A slot is reserved by a fetch-and-add on `size`. A thread whose slot lies beyond the capacity takes the vertex lock,
    waits until every slot is written, compacts the array into a new one and publishes it. Versions are numbered in the
    order of publication; the last one is current. `issued` and `completed` record, for the statements only, which updates
    have been begun, in that order, and which have returned. Timestamps and reclamation are the subject of VersionChain and TimeTravel. */
module InsertProtocol {
  import opened EdgeRecords
  import opened Compaction
  import opened EdgeArrays
  import opened VertexLog

  /** How far the writer of a reserved slot has come. */
  datatype Phase = JustReserved | DegAdded | EdgeWritten

  datatype Slot = Free | Pending(tid: nat, u: Update, phase: Phase) | Done(u: Update)

  /** One edge array. `cap`, `size`, `physical`, `deg` and `edge` are the shared words; `slots` says who owns each slot
      after the snapshot and is read by no step of the program. */
  datatype Version = Version(cap: nat, size: nat, physical: nat, deg: int, edge: seq<Edge>, snap: seq<Edge>,
                             slots: seq<Slot>)

  /** Where a thread stands in `Insert`. */
  datatype Pc =
    | Idle | Loaded | Reserved | Locking | Comparing | Waiting | Compacting | Built(arr: Version) | Reloading | Reserving
    | Unlocking | AddingDeg | WritingEdge | Counting

  /** A thread: its program counter, the update it is inserting, the version its local pointer names, its slot number. */
  datatype Thread = Thread(pc: Pc, u: Update, v: nat, i: nat)
  {
    predicate HoldsLock() {
      pc.Comparing? || pc.Waiting? || pc.Compacting? || pc.Built? || pc.Reloading? || pc.Reserving? || pc.Unlocking?
    }

    /** Threads that carry a slot number. */
    predicate HasSlot() {
      pc.Reserved? || pc.Unlocking? || pc.AddingDeg? || pc.WritingEdge? || pc.Counting?
    }

    function SlotPhase(): Phase {
      if pc.WritingEdge? then DegAdded else if pc.Counting? then EdgeWritten else JustReserved
    }
  }

  datatype Lock = Open | HeldBy(tid: nat)

  datatype State = State(versions: seq<Version>, lock: Lock, threads: map<nat, Thread>, issued: seq<Update>,
                         completed: multiset<Update>)

  datatype Action =
    | Load(u: Update) | Reserve | Test | Acquire | Compare | EndWait | Compacts | Publish | Reload | ReserveLocked
    | Unlock | AddDeg | WriteEdge | CountWritten

  function FreeSlots(n: nat): seq<Slot> {
    seq(n, _ => Free)
  }

  function NewVersion(cap: nat, snap: seq<Edge>): Version
    requires |snap| <= cap
  {
    Version(cap, |snap|, |snap|, |snap|, snap + seq(cap - |snap|, _ => UNWRITTEN), snap, FreeSlots(cap - |snap|))
  }

  predicate Initial(s: State) {
    && s.versions == [NewVersion(INITIAL_CAPACITY, [])]
    && s.lock == Open
    && (forall t | t in s.threads :: s.threads[t].pc == Idle)
    && s.issued == [] && s.completed == multiset{}
  }

  /** The fetch-and-add on `size`: the counter moves even when no slot is left. */
  function TakeSlot(ver: Version, t: nat, u: Update): Version {
    var j := ver.size - |ver.snap|;
    ver.(size := ver.size + 1,
         slots := if 0 <= j < |ver.slots| then ver.slots[j := Pending(t, u, JustReserved)] else ver.slots)
  }

  function SetSlot(ver: Version, i: nat, slot: Slot): Version {
    var j := i - |ver.snap|;
    ver.(slots := if 0 <= j < |ver.slots| then ver.slots[j := slot] else ver.slots)
  }

  predicate Writes(th: Thread) {
    th.pc.AddingDeg? || th.pc.WritingEdge? || th.pc.Counting?
  }

  /** The three writes: the owner of slot `i` moves the degree counter, writes the edge, counts it as written. */
  function Written(ver: Version, t: nat, th: Thread): Version
    requires Writes(th) && (th.pc.WritingEdge? ==> th.i < |ver.edge|)
  {
    if th.pc.AddingDeg? then SetSlot(ver, th.i, Pending(t, th.u, DegAdded)).(deg := ver.deg + th.u.DeltaDeg())
    else if th.pc.WritingEdge? then SetSlot(ver, th.i, Pending(t, th.u, EdgeWritten)).(edge := ver.edge[th.i := th.u.Record()])
    else SetSlot(ver, th.i, Done(th.u)).(physical := ver.physical + 1)
  }

  function AfterWrite(th: Thread): Thread {
    th.(pc := if th.pc.AddingDeg? then WritingEdge else if th.pc.WritingEdge? then Counting else Idle)
  }

  function PerformWrite(s: State, t: nat, th: Thread): State
    requires Writes(th) && th.v < |s.versions| && (th.pc.WritingEdge? ==> th.i < |s.versions[th.v].edge|)
  {
    s.(versions := s.versions[th.v := Written(s.versions[th.v], t, th)],
       threads := s.threads[t := AfterWrite(th)],
       completed := if th.pc.Counting? then s.completed + multiset{th.u} else s.completed)
  }

  /** Building the next version: allocation from the counters, then compaction of the whole array. */
  function CompactVersion(ver: Version, rate: real): Version
    requires rate >= 1.0 && ver.size >= ver.cap
  {
    var snap := Compact(ver.edge, |ver.snap|, ver.deg);
    NewVersion(Grown(Allocation(ver.deg, rate, ver.size - ver.cap + 1), |snap|), snap)
  }

  predicate Enabled(s: State, t: nat, a: Action) {
    && t in s.threads && |s.versions| > 0
    && var th := s.threads[t];
       match a
       case Load(_) => th.pc.Idle?
       case Reserve => th.pc.Loaded? && th.v < |s.versions|
       case Test => th.pc.Reserved? && th.v < |s.versions|
       case Acquire => th.pc.Locking? && s.lock == Open
       case Compare => th.pc.Comparing?
       case EndWait => th.pc.Waiting? && th.v < |s.versions| && s.versions[th.v].physical == s.versions[th.v].cap
       case Compacts => th.pc.Compacting? && th.v < |s.versions| && s.versions[th.v].size >= s.versions[th.v].cap
       case Publish => th.pc.Built?
       case Reload => th.pc.Reloading?
       case ReserveLocked => th.pc.Reserving? && th.v < |s.versions|
       case Unlock => th.pc.Unlocking?
       case AddDeg => th.pc.AddingDeg? && th.v < |s.versions|
       case WriteEdge => th.pc.WritingEdge? && th.v < |s.versions| && th.i < |s.versions[th.v].edge|
       case CountWritten => th.pc.Counting? && th.v < |s.versions|
  }

  function Perform(s: State, t: nat, a: Action, rate: real): State
    requires Enabled(s, t, a) && rate >= 1.0
  {
    var th := s.threads[t];
    var cur := |s.versions| - 1;
    match a
    case Load(u) => s.(threads := s.threads[t := th.(pc := Loaded, u := u, v := cur)], issued := s.issued + [u])
    case Reserve =>
      s.(versions := s.versions[th.v := TakeSlot(s.versions[th.v], t, th.u)],
         threads := s.threads[t := th.(pc := Reserved, i := s.versions[th.v].size)])
    case Test => s.(threads := s.threads[t := th.(pc := if th.i >= s.versions[th.v].cap then Locking else AddingDeg)])
    case Acquire => s.(lock := HeldBy(t), threads := s.threads[t := th.(pc := Comparing)])
    case Compare => s.(threads := s.threads[t := th.(pc := if th.v == cur then Waiting else Reloading)])
    case EndWait => s.(threads := s.threads[t := th.(pc := Compacting)])
    case Compacts => s.(threads := s.threads[t := th.(pc := Built(CompactVersion(s.versions[th.v], rate)))])
    case Publish => s.(versions := s.versions + [th.pc.arr], threads := s.threads[t := th.(pc := Reloading)])
    case Reload => s.(threads := s.threads[t := th.(pc := Reserving, v := cur)])
    case ReserveLocked =>
      s.(versions := s.versions[th.v := TakeSlot(s.versions[th.v], t, th.u)],
         threads := s.threads[t := th.(pc := Unlocking, i := s.versions[th.v].size)])
    case Unlock => s.(lock := Open, threads := s.threads[t := th.(pc := Reserved)])
    case AddDeg => PerformWrite(s, t, th)
    case WriteEdge => PerformWrite(s, t, th)
    case CountWritten => PerformWrite(s, t, th)
  }

  ghost predicate Next(s: State, s': State, rate: real)
    requires rate >= 1.0
  {
    exists t: nat, a: Action :: Enabled(s, t, a) && s' == Perform(s, t, a, rate)
  }

  /** A run from the initial state, any thread moving at any time. */
  ghost predicate IsRun(run: seq<State>, rate: real)
    requires rate >= 1.0
  {
    && run != [] && Initial(run[0])
    && forall k {:trigger StepAt(run, k, rate)} | 0 <= k < |run| - 1 :: StepAt(run, k, rate)
  }

  ghost predicate StepAt(run: seq<State>, k: nat, rate: real)
    requires rate >= 1.0 && k < |run| - 1
  {
    Next(run[k], run[k + 1], rate)
  }

  // ----- Counting over slots -----

  function CountDone(slots: seq<Slot>): nat {
    if slots == [] then 0 else CountDone(slots[..|slots| - 1]) + (if slots[|slots| - 1].Done? then 1 else 0)
  }

  function CountPending(slots: seq<Slot>): nat {
    if slots == [] then 0 else CountPending(slots[..|slots| - 1]) + (if slots[|slots| - 1].Pending? then 1 else 0)
  }

  function SlotDelta(slot: Slot): int {
    match slot
    case Free => 0
    case Pending(_, u, p) => if p == JustReserved then 0 else u.DeltaDeg()
    case Done(u) => u.DeltaDeg()
  }

  /** The degree changes that have reached the counter. */
  function SumSlots(slots: seq<Slot>): int {
    if slots == [] then 0 else SumSlots(slots[..|slots| - 1]) + SlotDelta(slots[|slots| - 1])
  }

  /** The completed updates of a version in slot order. */
  function Logged(slots: seq<Slot>): seq<Update> {
    if slots == [] then []
    else Logged(slots[..|slots| - 1]) + (if slots[|slots| - 1].Done? then [slots[|slots| - 1].u] else [])
  }

  /** Steps the writers of a version still have to make. */
  function WaitWork(slots: seq<Slot>): nat {
    if slots == [] then 0 else WaitWork(slots[..|slots| - 1]) + SlotWork(slots[|slots| - 1])
  }

  function SlotWork(slot: Slot): nat {
    match slot
    case Pending(_, _, JustReserved) => 3
    case Pending(_, _, DegAdded) => 2
    case Pending(_, _, EdgeWritten) => 1
    case _ => 0
  }

  /** What changing one slot does to all the counts. */
  lemma {:induction false} SlotUpdate(slots: seq<Slot>, j: nat, slot: Slot)
    requires j < |slots|
    ensures CountDone(slots[j := slot])
         == CountDone(slots) - (if slots[j].Done? then 1 else 0) + (if slot.Done? then 1 else 0)
    ensures SumSlots(slots[j := slot]) == SumSlots(slots) - SlotDelta(slots[j]) + SlotDelta(slot)
    ensures WaitWork(slots[j := slot]) == WaitWork(slots) - SlotWork(slots[j]) + SlotWork(slot)
  {
    var n := |slots| - 1;
    var after := slots[j := slot];
    if j == n {
      assert after[..n] == slots[..n];
    } else {
      assert after[..n] == slots[..n][j := slot];
      SlotUpdate(slots[..n], j, slot);
    }
  }

  lemma {:induction false} LoggedLast(slots: seq<Slot>, j: nat, slot: Slot)
    requires j < |slots|
    ensures var n := |slots| - 1;
            slots[j := slot][..n] == if j == n then slots[..n] else slots[..n][j := slot]
  {
  }

  lemma {:induction false} LoggedSame(slots: seq<Slot>, j: nat, slot: Slot)
    requires j < |slots| && !slots[j].Done? && !slot.Done?
    ensures Logged(slots[j := slot]) == Logged(slots)
  {
    LoggedLast(slots, j, slot);
    if j < |slots| - 1 {
      LoggedSame(slots[..|slots| - 1], j, slot);
    }
  }

  lemma {:induction false} LoggedMore(slots: seq<Slot>, j: nat, u: Update)
    requires j < |slots| && !slots[j].Done?
    ensures multiset(Logged(slots[j := Done(u)])) == multiset(Logged(slots)) + multiset{u}
  {
    LoggedLast(slots, j, Done(u));
    if j < |slots| - 1 {
      LoggedMore(slots[..|slots| - 1], j, u);
    }
  }

  lemma {:induction false} LoggedUpdate(slots: seq<Slot>, j: nat, slot: Slot)
    requires j < |slots| && !slots[j].Done?
    ensures !slot.Done? ==> Logged(slots[j := slot]) == Logged(slots)
    ensures slot.Done? ==> multiset(Logged(slots[j := slot])) == multiset(Logged(slots)) + multiset{slot.u}
  {
    if slot.Done? {
      LoggedMore(slots, j, slot.u);
    } else {
      LoggedSame(slots, j, slot);
    }
  }

  lemma {:induction false} CountBounds(slots: seq<Slot>)
    ensures CountDone(slots) + CountPending(slots) <= |slots|
    ensures (forall j | 0 <= j < |slots| :: !slots[j].Free?) ==> CountDone(slots) + CountPending(slots) == |slots|
    ensures WaitWork(slots) == 0 <==> CountPending(slots) == 0
  {
    if slots != [] {
      CountBounds(slots[..|slots| - 1]);
    }
  }

  /** The occupied slots of a version form a prefix, so counting them gives its length. */
  lemma {:induction false} CountPrefix(slots: seq<Slot>, n: nat)
    requires n <= |slots|
    requires forall j | 0 <= j < |slots| :: slots[j].Free? <==> j >= n
    ensures CountDone(slots) + CountPending(slots) == n
  {
    if n == |slots| {
      CountBounds(slots);
    } else {
      CountPrefix(slots[..|slots| - 1], n);
    }
  }

  lemma {:induction false} AllDone(slots: seq<Slot>)
    requires CountDone(slots) == |slots|
    ensures forall j | 0 <= j < |slots| :: slots[j].Done?
    ensures |Logged(slots)| == |slots|
    ensures forall j | 0 <= j < |slots| :: Logged(slots)[j] == slots[j].u
    ensures SumSlots(slots) == SumDelta(Logged(slots))
  {
    if slots != [] {
      CountBounds(slots[..|slots| - 1]);
      AllDone(slots[..|slots| - 1]);
      var l := Logged(slots);
      assert l[..|l| - 1] == Logged(slots[..|slots| - 1]);
    }
  }

  lemma {:induction false} NoneDone(n: nat)
    ensures CountDone(FreeSlots(n)) == 0 && SumSlots(FreeSlots(n)) == 0 && Logged(FreeSlots(n)) == []
  {
    if n > 0 {
      assert FreeSlots(n)[..n - 1] == FreeSlots(n - 1);
      NoneDone(n - 1);
    }
  }

  // ----- The invariant -----

  /** What a slot's place in the edge buffer holds. */
  function SlotEdge(slot: Slot): Edge {
    match slot
    case Done(u) => u.Record()
    case Pending(_, u, EdgeWritten) => u.Record()
    case _ => UNWRITTEN
  }

  /** The counters agree with the ownership of the slots. */
  ghost predicate CountersOk(ver: Version) {
    && ver.physical == |ver.snap| + CountDone(ver.slots)
    && ver.deg == |ver.snap| + SumSlots(ver.slots)
  }

  /** So does the edge buffer: reserved slots form a prefix, and a slot holds its record from the write on. */
  ghost predicate CellsOk(ver: Version)
    requires ShapeOk(ver)
  {
    && (forall k | 0 <= k < |ver.snap| :: ver.edge[k] == ver.snap[k])
    && (forall j | 0 <= j < |ver.slots| :: ver.slots[j].Free? <==> |ver.snap| + j >= ver.size)
    && (forall j | 0 <= j < |ver.slots| :: ver.edge[|ver.snap| + j] == SlotEdge(ver.slots[j]))
  }

  ghost predicate ShapeOk(ver: Version) {
    && |ver.snap| <= ver.cap && |ver.snap| <= ver.size
    && |ver.edge| == ver.cap && |ver.slots| == ver.cap - |ver.snap|
  }

  /** The shared words of one version agree with the ownership of its slots. */
  ghost predicate VersionOk(ver: Version) {
    ShapeOk(ver) && CountersOk(ver) && CellsOk(ver)
  }

  ghost predicate Full(ver: Version) {
    ver.size >= ver.cap && CountDone(ver.slots) == |ver.slots|
  }

  ghost predicate Fresh(arr: Version) {
    |arr.snap| <= arr.cap && arr == NewVersion(arr.cap, arr.snap)
  }

  ghost predicate ThreadOk(versions: seq<Version>, t: nat, th: Thread) {
    && (th.pc.Loaded? || th.pc.Reserving? ==> th.v < |versions|)
    && (th.HasSlot() ==>
          && th.v < |versions|
          && |versions[th.v].snap| <= th.i < versions[th.v].size
          && (th.i < versions[th.v].cap ==>
                && th.i - |versions[th.v].snap| < |versions[th.v].slots|
                && versions[th.v].slots[th.i - |versions[th.v].snap|] == Pending(t, th.u, th.SlotPhase()))
          && (th.pc.AddingDeg? || th.pc.WritingEdge? || th.pc.Counting? ==> th.i < versions[th.v].cap))
    && (th.pc.Locking? || th.pc.Comparing? || th.pc.Waiting? || th.pc.Compacting? || th.pc.Built? ==>
          th.v < |versions| && versions[th.v].size > versions[th.v].cap)
    && (th.pc.Waiting? || th.pc.Compacting? || th.pc.Built? ==> th.v == |versions| - 1)
    && (th.pc.Compacting? || th.pc.Built? ==> Full(versions[th.v]))
    && (th.pc.Built? ==>
          && Fresh(th.pc.arr)
          && th.pc.arr.snap == Compact(versions[th.v].edge, |versions[th.v].snap|, versions[th.v].deg))
  }

  /** Every pending slot belongs to the thread it names, and that thread stands at exactly this slot. */
  ghost predicate SlotOwned(threads: map<nat, Thread>, k: nat, ver: Version, j: nat)
    requires j < |ver.slots|
  {
    var slot := ver.slots[j];
    slot.Pending? ==>
      && slot.tid in threads && threads[slot.tid].HasSlot()
      && threads[slot.tid].v == k && threads[slot.tid].i == |ver.snap| + j
  }

  ghost predicate SlotsOwned(threads: map<nat, Thread>, k: nat, ver: Version) {
    forall j {:trigger SlotOwned(threads, k, ver, j)} | 0 <= j < |ver.slots| :: SlotOwned(threads, k, ver, j)
  }

  /** All completed updates: version by version, in slot order. */
  function History(versions: seq<Version>): seq<Update> {
    if versions == [] then []
    else History(versions[..|versions| - 1]) + Logged(versions[|versions| - 1].slots)
  }

  /** If the updates before version `k` were a well-formed history, its snapshot is their latest-wins map. */
  ghost predicate SnapshotOk(before: seq<Version>, snap: seq<Edge>) {
    WellFormed(map[], History(before)) ==> IsSnapshot(snap) && Replay(snap) == Replay(Records(History(before)))
  }

  ghost predicate SnapshotsOk(versions: seq<Version>) {
    versions == [] ||
    (var before := versions[..|versions| - 1];
     SnapshotsOk(before) && SnapshotOk(before, versions[|versions| - 1].snap))
  }

  ghost predicate LockOk(lock: Lock, threads: map<nat, Thread>) {
    && (lock.HeldBy? ==> lock.tid in threads)
    && (forall t | t in threads :: threads[t].HoldsLock() <==> lock == HeldBy(t))
  }

  ghost predicate VersionsOk(versions: seq<Version>) {
    && versions != []
    && (forall k {:trigger VersionOk(versions[k])} | 0 <= k < |versions| :: VersionOk(versions[k]))
    && (forall k {:trigger Full(versions[k])} | 0 <= k < |versions| - 1 :: Full(versions[k]))
    && SnapshotsOk(versions)
  }

  ghost predicate ThreadsOk(versions: seq<Version>, threads: map<nat, Thread>) {
    forall t {:trigger ThreadOk(versions, t, threads[t])} | t in threads :: ThreadOk(versions, t, threads[t])
  }

  ghost predicate AllOwned(threads: map<nat, Thread>, versions: seq<Version>) {
    forall k {:trigger SlotsOwned(threads, k, versions[k])} | 0 <= k < |versions| :: SlotsOwned(threads, k, versions[k])
  }

  ghost predicate Inv(s: State) {
    && VersionsOk(s.versions)
    && LockOk(s.lock, s.threads)
    && ThreadsOk(s.versions, s.threads)
    && AllOwned(s.threads, s.versions)
    && s.completed == multiset(History(s.versions))
  }

  lemma {:induction false} FreshOk(arr: Version)
    requires Fresh(arr)
    ensures VersionOk(arr) && Logged(arr.slots) == [] && (forall j | 0 <= j < |arr.slots| :: arr.slots[j].Free?)
  {
    NoneDone(arr.cap - |arr.snap|);
  }

  lemma {:induction false} FirstVersion(versions: seq<Version>)
    requires versions == [NewVersion(INITIAL_CAPACITY, [])]
    ensures VersionsOk(versions) && History(versions) == []
  {
    var ver := versions[0];
    FreshOk(ver);
    assert VersionOk(versions[0]);
    assert versions[..0] == [];
    assert Records([]) == [];
    assert SnapshotsOk([]) && SnapshotOk([], ver.snap);
  }

  lemma {:induction false} FirstOwned(versions: seq<Version>, threads: map<nat, Thread>)
    requires versions == [NewVersion(INITIAL_CAPACITY, [])]
    ensures AllOwned(threads, versions)
  {
    FreshOk(versions[0]);
  }

  lemma {:induction false} AllIdle(versions: seq<Version>, threads: map<nat, Thread>)
    requires forall t | t in threads :: threads[t].pc == Idle
    ensures ThreadsOk(versions, threads) && LockOk(Open, threads)
  {
  }

  lemma {:induction false} InitialInv(s: State)
    requires Initial(s)
    ensures Inv(s)
  {
    FirstVersion(s.versions);
    FirstOwned(s.versions, s.threads);
    AllIdle(s.versions, s.threads);
  }

  // ----- Steps that touch no version -----

  ghost predicate KeepsSlot(versions: seq<Version>, th: Thread, th': Thread) {
    th.HasSlot() && th.v < |versions| && th.i < versions[th.v].cap ==> th'.HasSlot() && th'.v == th.v && th'.i == th.i
  }

  /** A thread moves without changing any version: the invariant stands if the thread's new position is sound, it keeps
      the slot it owned, and the lock changes hands with it. */
  lemma {:induction false} LocalStep(s: State, s': State, t: nat)
    requires Inv(s) && t in s.threads && t in s'.threads
    requires s' == s.(lock := s'.lock, threads := s.threads[t := s'.threads[t]])
    requires ThreadOk(s.versions, t, s'.threads[t])
    requires KeepsSlot(s.versions, s.threads[t], s'.threads[t])
    requires LockOk(s'.lock, s'.threads)
    ensures Inv(s')
  {
    forall k | 0 <= k < |s.versions| ensures SlotsOwned(s'.threads, k, s.versions[k]) {
      assert SlotsOwned(s.threads, k, s.versions[k]) && VersionOk(s.versions[k]);
      forall j | 0 <= j < |s.versions[k].slots|
        ensures SlotOwned(s'.threads, k, s.versions[k], j)
      {
        assert SlotOwned(s.threads, k, s.versions[k], j);
      }
    }
  }

  /** Only the thread itself moves, and it keeps or lacks the lock as before. */
  lemma {:induction false} ThreadStep(s: State, t: nat, th': Thread)
    requires Inv(s) && t in s.threads && ThreadOk(s.versions, t, th')
    requires s.threads[t].HoldsLock() == th'.HoldsLock()
    requires KeepsSlot(s.versions, s.threads[t], th')
    ensures Inv(s.(threads := s.threads[t := th']))
  {
    LocalStep(s, s.(threads := s.threads[t := th']), t);
  }

  lemma {:induction false} LoadStep(s: State, t: nat, a: Action, rate: real)
    requires Inv(s) && Enabled(s, t, a) && rate >= 1.0 && (a.Load? || a.Reload?)
    ensures Inv(Perform(s, t, a, rate))
  {
    var s' := Perform(s, t, a, rate);
    ThreadStep(s, t, s'.threads[t]);
    assert Inv(s.(threads := s.threads[t := s'.threads[t]]));
  }

  lemma {:induction false} TestThread(s: State, t: nat, th: Thread, th': Thread)
    requires th.pc.Reserved? && th.v < |s.versions| && ThreadOk(s.versions, t, th)
    requires th' == th.(pc := if th.i >= s.versions[th.v].cap then Locking else AddingDeg)
    ensures ThreadOk(s.versions, t, th') && KeepsSlot(s.versions, th, th') && !th.HoldsLock() && !th'.HoldsLock()
  {
  }

  lemma {:induction false} TestStep(s: State, t: nat, rate: real)
    requires Inv(s) && Enabled(s, t, Test) && rate >= 1.0
    ensures Inv(Perform(s, t, Test, rate))
  {
    var th' := Perform(s, t, Test, rate).threads[t];
    assert ThreadOk(s.versions, t, s.threads[t]);
    TestThread(s, t, s.threads[t], th');
    ThreadStep(s, t, th');
  }

  lemma {:induction false} CompareStep(s: State, t: nat, rate: real)
    requires Inv(s) && Enabled(s, t, Compare) && rate >= 1.0
    ensures Inv(Perform(s, t, Compare, rate))
  {
    assert ThreadOk(s.versions, t, s.threads[t]);
    ThreadStep(s, t, Perform(s, t, Compare, rate).threads[t]);
  }

  /** Taking the vertex lock. */
  lemma {:induction false} AcquireStep(s: State, t: nat, rate: real)
    requires Inv(s) && Enabled(s, t, Acquire) && rate >= 1.0
    ensures Inv(Perform(s, t, Acquire, rate))
  {
    var s' := Perform(s, t, Acquire, rate);
    assert ThreadOk(s.versions, t, s.threads[t]);
    assert ThreadOk(s.versions, t, s'.threads[t]);
    LocalStep(s, s', t);
  }

  /** Releasing it: no other thread can be at a position that needs it. */
  lemma {:induction false} UnlockStep(s: State, t: nat, rate: real)
    requires Inv(s) && Enabled(s, t, Unlock) && rate >= 1.0
    ensures Inv(Perform(s, t, Unlock, rate))
  {
    var s' := Perform(s, t, Unlock, rate);
    assert ThreadOk(s.versions, t, s.threads[t]);
    assert ThreadOk(s.versions, t, s'.threads[t]);
    assert LockOk(s'.lock, s'.threads) by {
      assert s.lock == HeldBy(t);
    }
    LocalStep(s, s', t);
  }

  /** The wait ends only when every reserved slot is written: no writer is left in the version. */
  lemma {:induction false} WaitEnds(s: State, t: nat, rate: real)
    requires Inv(s) && Enabled(s, t, EndWait) && rate >= 1.0
    ensures Full(s.versions[s.threads[t].v]) && Inv(Perform(s, t, EndWait, rate))
  {
    var v := s.threads[t].v;
    assert ThreadOk(s.versions, t, s.threads[t]);
    assert VersionOk(s.versions[v]);
    ThreadStep(s, t, Perform(s, t, EndWait, rate).threads[t]);
  }

  lemma {:induction false} CompactStep(s: State, t: nat, rate: real)
    requires Inv(s) && Enabled(s, t, Compacts) && rate >= 1.0
    ensures Inv(Perform(s, t, Compacts, rate))
  {
    assert ThreadOk(s.versions, t, s.threads[t]);
    ThreadStep(s, t, Perform(s, t, Compacts, rate).threads[t]);
  }

  // ----- Steps inside one version -----

  lemma {:induction false} HistorySame(versions: seq<Version>, v: nat, ver: Version)
    requires v < |versions| && Logged(ver.slots) == Logged(versions[v].slots)
    ensures History(versions[v := ver]) == History(versions)
  {
    var n := |versions| - 1;
    var after := versions[v := ver];
    if v == n {
      assert after[..n] == versions[..n];
    } else {
      assert after[..n] == versions[..n][v := ver];
      HistorySame(versions[..n], v, ver);
    }
  }

  lemma {:induction false} HistoryPlus(versions: seq<Version>, v: nat, ver: Version, u: Update)
    requires v < |versions| && multiset(Logged(ver.slots)) == multiset(Logged(versions[v].slots)) + multiset{u}
    ensures multiset(History(versions[v := ver])) == multiset(History(versions)) + multiset{u}
  {
    var n := |versions| - 1;
    var after := versions[v := ver];
    if v == n {
      assert after[..n] == versions[..n];
    } else {
      assert after[..n] == versions[..n][v := ver];
      HistoryPlus(versions[..n], v, ver, u);
    }
  }

  /** Replacing the current version, or changing no log at all, leaves every snapshot justified. */
  lemma {:induction false} SnapshotsKept(versions: seq<Version>, v: nat, ver: Version)
    requires v < |versions| && ver.snap == versions[v].snap
    requires v == |versions| - 1 || Logged(ver.slots) == Logged(versions[v].slots)
    requires SnapshotsOk(versions)
    ensures SnapshotsOk(versions[v := ver])
  {
    var n := |versions| - 1;
    var after := versions[v := ver];
    if v == n {
      assert after[..n] == versions[..n];
    } else {
      assert after[..n] == versions[..n][v := ver];
      HistorySame(versions[..n], v, ver);
      SnapshotsKept(versions[..n], v, ver);
    }
  }

  ghost predicate SameShape(was: Version, now: Version) {
    now.snap == was.snap && now.cap == was.cap && now.size >= was.size && |now.slots| == |was.slots|
  }

  /** Only slot `j` differs. */
  ghost predicate OnlySlot(was: Version, now: Version, j: int) {
    && |now.slots| == |was.slots|
    && (forall n | 0 <= n < |now.slots| && n != j :: now.slots[n] == was.slots[n])
  }

  /** Version `v` may become `ver`: the counters and cells stay consistent, only slot `j` differs, and a version in
      which every slot is written keeps its edges. */
  ghost predicate VersionChange(versions: seq<Version>, v: nat, ver: Version, j: int) {
    && v < |versions|
    && SameShape(versions[v], ver) && OnlySlot(versions[v], ver, j) && VersionOk(ver)
    && (v < |versions| - 1 ==> Full(ver) && Logged(ver.slots) == Logged(versions[v].slots))
    && (Full(versions[v]) ==> Full(ver) && ver.edge == versions[v].edge && ver.deg == versions[v].deg)
  }

  /** Thread `t` may move to `th'` with it: it owns slot `j` before, if anyone does, and after, if it is pending. */
  ghost predicate ThreadChange(s: State, t: nat, th': Thread, v: nat, ver: Version, j: int) {
    && t in s.threads && v < |s.versions| && |ver.slots| == |s.versions[v].slots|
    && (0 <= j < |ver.slots| ==> SlotOwned(s.threads[t := th'], v, ver, j))
    && (0 <= j < |ver.slots| && s.versions[v].slots[j].Pending? ==> s.versions[v].slots[j].tid == t)
    && (s.threads[t].HasSlot() ==> s.threads[t].v == v && s.threads[t].i == |ver.snap| + j)
    && ThreadOk(s.versions[v := ver], t, th') && s.threads[t].HoldsLock() == th'.HoldsLock()
  }

  lemma {:induction false} VersionsKept(versions: seq<Version>, v: nat, ver: Version, j: int)
    requires VersionsOk(versions) && VersionChange(versions, v, ver, j)
    ensures VersionsOk(versions[v := ver])
  {
    SnapshotsKept(versions, v, ver);
    var after := versions[v := ver];
    forall k | 0 <= k < |after| ensures VersionOk(after[k]) {
      assert VersionOk(versions[k]);
    }
    forall k | 0 <= k < |after| - 1 ensures Full(after[k]) {
      assert Full(versions[k]);
    }
  }

  /** Reserving a slot, on entry without the lock or after an expansion under it. */
  lemma {:induction false} TakeSlotCounters(ver: Version, t: nat, u: Update)
    requires ShapeOk(ver) && CountersOk(ver)
    requires 0 <= ver.size - |ver.snap| < |ver.slots| ==> ver.slots[ver.size - |ver.snap|].Free?
    ensures CountersOk(TakeSlot(ver, t, u)) && Logged(TakeSlot(ver, t, u).slots) == Logged(ver.slots)
  {
    var j := ver.size - |ver.snap|;
    if j < |ver.slots| {
      SlotUpdate(ver.slots, j, Pending(t, u, JustReserved));
      LoggedUpdate(ver.slots, j, Pending(t, u, JustReserved));
    }
  }

  lemma {:induction false} TakeSlotCells(ver: Version, t: nat, u: Update)
    requires ShapeOk(ver) && CellsOk(ver)
    ensures ShapeOk(TakeSlot(ver, t, u)) && CellsOk(TakeSlot(ver, t, u))
  {
    var after := TakeSlot(ver, t, u);
    forall j | 0 <= j < |after.slots|
      ensures after.slots[j].Free? <==> |after.snap| + j >= after.size
      ensures after.edge[|after.snap| + j] == SlotEdge(after.slots[j])
    {
      assert ver.slots[j].Free? <==> |ver.snap| + j >= ver.size;
      assert ver.edge[|ver.snap| + j] == SlotEdge(ver.slots[j]);
    }
  }

  lemma {:induction false} TakeSlotOk(ver: Version, t: nat, u: Update)
    requires VersionOk(ver)
    ensures VersionOk(TakeSlot(ver, t, u)) && Logged(TakeSlot(ver, t, u).slots) == Logged(ver.slots)
  {
    TakeSlotCounters(ver, t, u);
    TakeSlotCells(ver, t, u);
  }

  lemma {:induction false} TakeSlotFull(ver: Version, t: nat, u: Update)
    requires VersionOk(ver) && Full(ver)
    ensures Full(TakeSlot(ver, t, u)) && TakeSlot(ver, t, u).slots == ver.slots
  {
  }

  /** The positions of all other threads survive a change of one version that keeps their slots. */
  lemma {:induction false} OtherThread(versions: seq<Version>, v: nat, ver: Version, q: nat, th: Thread)
    requires v < |versions| && ThreadOk(versions, q, th)
    requires ver.snap == versions[v].snap && ver.cap == versions[v].cap && ver.size >= versions[v].size
    requires |ver.slots| == |versions[v].slots|
    requires forall j | 0 <= j < |ver.slots| :: ver.slots[j] == versions[v].slots[j]
               || !(versions[v].slots[j].Pending? && versions[v].slots[j].tid == q)
    requires Full(versions[v]) ==> Full(ver) && ver.edge == versions[v].edge && ver.deg == versions[v].deg
    ensures ThreadOk(versions[v := ver], q, th)
  {
    if th.HasSlot() && th.v == v && th.i < ver.cap {
      var j := th.i - |ver.snap|;
      assert ver.slots[j] == versions[v].slots[j];
    }
  }

  /** Ownership after thread `t` has moved to `th'` and at most slot `j` of version `v` has changed. */
  lemma {:induction false} SlotsKept(s: State, t: nat, th': Thread, v: nat, ver: Version, j: int)
    requires AllOwned(s.threads, s.versions) && VersionChange(s.versions, v, ver, j) && ThreadChange(s, t, th', v, ver, j)
    ensures AllOwned(s.threads[t := th'], s.versions[v := ver])
  {
    var threads' := s.threads[t := th'];
    var versions' := s.versions[v := ver];
    forall k | 0 <= k < |versions'| ensures SlotsOwned(threads', k, versions'[k]) {
      var was, now := s.versions[k], versions'[k];
      assert SlotsOwned(s.threads, k, was);
      forall n | 0 <= n < |now.slots| ensures SlotOwned(threads', k, now, n) {
        if k != v || n != j {
          assert now.slots[n] == was.slots[n];
          assert SlotOwned(s.threads, k, was, n);
        }
      }
    }
  }

  lemma {:induction false} OtherThreads(s: State, t: nat, th': Thread, v: nat, ver: Version, j: int)
    requires ThreadsOk(s.versions, s.threads) && VersionChange(s.versions, v, ver, j)
    requires ThreadChange(s, t, th', v, ver, j)
    ensures ThreadsOk(s.versions[v := ver], s.threads[t := th'])
  {
    forall q | q in s.threads && q != t ensures ThreadOk(s.versions[v := ver], q, s.threads[q]) {
      assert ThreadOk(s.versions, q, s.threads[q]);
      OtherThread(s.versions, v, ver, q, s.threads[q]);
    }
  }

  lemma {:induction false} LockKept(lock: Lock, threads: map<nat, Thread>, t: nat, th': Thread)
    requires LockOk(lock, threads) && t in threads && threads[t].HoldsLock() == th'.HoldsLock()
    ensures LockOk(lock, threads[t := th'])
  {
  }

  /** A step of thread `t` inside version `v`. */
  lemma {:induction false} SlotStep(s: State, t: nat, th': Thread, v: nat, ver: Version, j: int, done: multiset<Update>)
    requires Inv(s) && VersionChange(s.versions, v, ver, j) && ThreadChange(s, t, th', v, ver, j)
    requires done == multiset(History(s.versions[v := ver]))
    ensures Inv(s.(versions := s.versions[v := ver], threads := s.threads[t := th'], completed := done))
  {
    VersionsKept(s.versions, v, ver, j);
    SlotsKept(s, t, th', v, ver, j);
    OtherThreads(s, t, th', v, ver, j);
    LockKept(s.lock, s.threads, t, th');
  }

  /** Thread `t`, at `th`, reserves slot `j` of version `v`, turning `was` into `ver` and moving to `th'`. */
  ghost predicate Reserves(s: State, t: nat, th: Thread, th': Thread, v: nat, was: Version, ver: Version, j: int) {
    && t in s.threads && th == s.threads[t]
    && (|| (th.pc.Loaded? && th' == th.(pc := Reserved, i := was.size))
        || (th.pc.Reserving? && th' == th.(pc := Unlocking, i := was.size)))
    && v == th.v && v < |s.versions| && was == s.versions[v]
    && ver == TakeSlot(was, t, th.u) && j == was.size - |was.snap|
  }

  lemma {:induction false} ReserveVersion(s: State, t: nat, th: Thread, th': Thread, v: nat, was: Version, ver: Version,
                                          j: int)
    requires Inv(s) && Reserves(s, t, th, th', v, was, ver, j)
    ensures VersionChange(s.versions, v, ver, j) && Logged(ver.slots) == Logged(was.slots)
  {
    assert VersionOk(s.versions[v]);
    assert v < |s.versions| - 1 ==> Full(s.versions[v]);
    TakeSlotOk(was, t, th.u);
    if Full(was) {
      TakeSlotFull(was, t, th.u);
    }
  }

  lemma {:induction false} ReserveThread(s: State, t: nat, th: Thread, th': Thread, v: nat, was: Version, ver: Version,
                                         j: int)
    requires Inv(s) && Reserves(s, t, th, th', v, was, ver, j)
    ensures ThreadChange(s, t, th', v, ver, j)
  {
    assert ThreadOk(s.versions, t, s.threads[t]);
    assert VersionOk(s.versions[v]);
  }

  lemma {:induction false} ReserveStep(s: State, t: nat, th: Thread, th': Thread, v: nat, was: Version, ver: Version, j: int)
    requires Inv(s) && Reserves(s, t, th, th', v, was, ver, j)
    ensures Inv(s.(versions := s.versions[v := ver], threads := s.threads[t := th']))
  {
    ReserveVersion(s, t, th, th', v, was, ver, j);
    ReserveThread(s, t, th, th', v, was, ver, j);
    HistorySame(s.versions, v, ver);
    SlotStep(s, t, th', v, ver, j, s.completed);
  }

  // ----- The three writes of a slot owner -----

  lemma {:induction false} WriteCounters(ver: Version, t: nat, th: Thread)
    requires Writes(th)
    requires ShapeOk(ver) && CountersOk(ver) && |ver.snap| <= th.i < ver.cap
    requires ver.slots[th.i - |ver.snap|] == Pending(t, th.u, th.SlotPhase())
    ensures CountersOk(Written(ver, t, th)) && !Full(ver)
    ensures if th.pc.Counting? then multiset(Logged(Written(ver, t, th).slots)) == multiset(Logged(ver.slots)) + multiset{th.u}
            else Logged(Written(ver, t, th).slots) == Logged(ver.slots)
  {
    var j := th.i - |ver.snap|;
    SlotUpdate(ver.slots, j, Written(ver, t, th).slots[j]);
    LoggedUpdate(ver.slots, j, Written(ver, t, th).slots[j]);
    if Full(ver) {
      AllDone(ver.slots);
    }
  }

  lemma {:induction false} WriteCells(ver: Version, t: nat, th: Thread)
    requires Writes(th)
    requires ShapeOk(ver) && CellsOk(ver) && |ver.snap| <= th.i < ver.cap
    requires ver.slots[th.i - |ver.snap|] == Pending(t, th.u, th.SlotPhase())
    ensures ShapeOk(Written(ver, t, th)) && CellsOk(Written(ver, t, th))
    ensures SameShape(ver, Written(ver, t, th)) && OnlySlot(ver, Written(ver, t, th), th.i - |ver.snap|)
  {
  }

  /** Thread `t`, at `th`, writes slot `j` of version `v`, turning `was` into `ver` and moving to `th'`. */
  ghost predicate Writing(s: State, t: nat, th: Thread, th': Thread, v: nat, was: Version, ver: Version, j: int) {
    && t in s.threads && th == s.threads[t] && Writes(th) && th' == AfterWrite(th)
    && v == th.v && v < |s.versions| && was == s.versions[v] && th.i < |was.edge|
    && ver == Written(was, t, th) && j == th.i - |was.snap|
  }

  lemma {:induction false} WriterStands(versions: seq<Version>, t: nat, th: Thread)
    requires ThreadOk(versions, t, th) && Writes(th) && th.v < |versions|
    ensures |versions[th.v].snap| <= th.i < versions[th.v].size && th.i < versions[th.v].cap
    ensures th.i - |versions[th.v].snap| < |versions[th.v].slots|
    ensures versions[th.v].slots[th.i - |versions[th.v].snap|] == Pending(t, th.u, th.SlotPhase())
  {
  }

  lemma {:induction false} WriterSlot(s: State, t: nat, th: Thread, was: Version)
    requires VersionsOk(s.versions) && ThreadsOk(s.versions, s.threads) && t in s.threads && th == s.threads[t] && Writes(th)
    requires th.v < |s.versions| && was == s.versions[th.v]
    ensures VersionOk(was) && |was.snap| <= th.i < was.size && th.i < was.cap
    ensures was.slots[th.i - |was.snap|] == Pending(t, th.u, th.SlotPhase())
  {
    assert VersionOk(s.versions[th.v]);
    assert ThreadOk(s.versions, t, s.threads[t]);
    WriterStands(s.versions, t, th);
  }

  lemma {:induction false} WritePosition(versions: seq<Version>, t: nat, th: Thread, th': Thread, v: nat, ver: Version, j: int)
    requires v < |versions| && Writes(th) && th' == AfterWrite(th) && th.v == v && ShapeOk(versions[v])
    requires |versions[v].snap| <= th.i < versions[v].size && th.i < versions[v].cap
    requires ver == Written(versions[v], t, th) && j == th.i - |versions[v].snap|
    ensures ThreadOk(versions[v := ver], t, th')
  {
  }

  lemma {:induction false} WriteThread(s: State, t: nat, th: Thread, th': Thread, v: nat, was: Version, ver: Version, j: int)
    requires VersionOk(was) && |was.snap| <= th.i < was.size && th.i < was.cap
    requires was.slots[th.i - |was.snap|] == Pending(t, th.u, th.SlotPhase())
    requires Writing(s, t, th, th', v, was, ver, j)
    ensures ThreadChange(s, t, th', v, ver, j)
  {
    WritePosition(s.versions, t, th, th', v, ver, j);
  }

  lemma {:induction false} WriteVersion(s: State, t: nat, th: Thread, th': Thread, v: nat, was: Version, ver: Version, j: int)
    requires Inv(s) && Writing(s, t, th, th', v, was, ver, j)
    ensures VersionChange(s.versions, v, ver, j)
    ensures if th.pc.Counting? then multiset(Logged(ver.slots)) == multiset(Logged(was.slots)) + multiset{th.u}
            else Logged(ver.slots) == Logged(was.slots)
  {
    assert v < |s.versions| - 1 ==> Full(s.versions[v]);
    WriterSlot(s, t, th, was);
    WriteCounters(was, t, th);
    WriteCells(was, t, th);
  }

  lemma {:induction false} WriteStep(s: State, t: nat, th: Thread, th': Thread, v: nat, was: Version, ver: Version, j: int,
                                     done: multiset<Update>)
    requires Inv(s) && Writing(s, t, th, th', v, was, ver, j)
    requires done == if th.pc.Counting? then s.completed + multiset{th.u} else s.completed
    ensures Inv(s.(versions := s.versions[v := ver], threads := s.threads[t := th'], completed := done))
  {
    WriterSlot(s, t, th, was);
    WriteThread(s, t, th, th', v, was, ver, j);
    WriteVersion(s, t, th, th', v, was, ver, j);
    if th.pc.Counting? {
      HistoryPlus(s.versions, v, ver, th.u);
    } else {
      HistorySame(s.versions, v, ver);
    }
    SlotStep(s, t, th', v, ver, j, done);
  }

  // ----- Publishing a compacted version -----

  /** Once every slot is written, the buffer is the snapshot followed by the log, and the counter its degree: exactly
      what compaction may rely on. */
  lemma {:induction false} FullIsLogged(ver: Version)
    requires VersionOk(ver) && Full(ver)
    ensures ver.edge == ver.snap + Records(Logged(ver.slots))
    ensures ver.deg == |ver.snap| + SumDelta(Logged(ver.slots))
  {
    AllDone(ver.slots);
    QuietEdges(ver, |ver.slots|);
    assert ver.edge[..ver.cap] == ver.edge;
  }

  lemma {:induction false} ReplayWhole(h: seq<Update>, log: seq<Update>)
    ensures Replay(Records(h + log)) == ReplayFrom(Replay(Records(h)), Records(log))
  {
    ReplayConcat(map[], Records(h), Records(log));
    RecordsConcat(h, log);
  }

  lemma {:induction false} CompactHistory(h: seq<Update>, log: seq<Update>, base: seq<Edge>, snap: seq<Edge>)
    requires WellFormed(map[], h + log)
    requires WellFormed(map[], h) ==> IsSnapshot(base) && Replay(base) == Replay(Records(h))
    requires snap == Compact(base + Records(log), |base|, |base| + SumDelta(log))
    ensures IsSnapshot(snap) && Replay(snap) == Replay(Records(h + log))
  {
    WellFormedConcat(map[], h, log);
    CompactPreservesMeaning(base, log);
    ReplayWhole(h, log);
  }

  /** The compacted snapshot is the latest-wins map of the whole history, if the history was well formed. */
  lemma {:induction false} SnapshotOfHistory(before: seq<Version>, ver: Version, snap: seq<Edge>)
    requires VersionOk(ver) && Full(ver) && SnapshotOk(before, ver.snap)
    requires snap == Compact(ver.edge, |ver.snap|, ver.deg)
    ensures SnapshotOk(before + [ver], snap)
  {
    var h, log := History(before), Logged(ver.slots);
    assert (before + [ver])[..|before|] == before;
    assert History(before + [ver]) == h + log;
    if WellFormed(map[], h + log) {
      FullIsLogged(ver);
      CompactHistory(h, log, ver.snap, snap);
    }
  }

  lemma {:induction false} PublishVersions(versions: seq<Version>, arr: Version)
    requires VersionsOk(versions) && Fresh(arr)
    requires var ver := versions[|versions| - 1]; Full(ver) && arr.snap == Compact(ver.edge, |ver.snap|, ver.deg)
    ensures VersionsOk(versions + [arr]) && History(versions + [arr]) == History(versions)
  {
    var n := |versions| - 1;
    var after := versions + [arr];
    FreshOk(arr);
    assert VersionOk(versions[n]);
    SnapshotOfHistory(versions[..n], versions[n], arr.snap);
    assert versions[..n] + [versions[n]] == versions;
    assert after[..|versions|] == versions;
    forall k | 0 <= k < |after| ensures VersionOk(after[k]) {
      if k < |versions| {
        assert VersionOk(versions[k]);
      }
    }
    forall k | 0 <= k < |after| - 1 ensures Full(after[k]) {
      if k < n {
        assert Full(versions[k]);
      }
    }
  }

  lemma {:induction false} PublishThreads(s: State, t: nat, arr: Version)
    requires Inv(s) && t in s.threads && s.threads[t].pc.Built? && s.threads[t].pc.arr == arr
    ensures ThreadsOk(s.versions + [arr], s.threads[t := s.threads[t].(pc := Reloading)])
  {
    var versions', threads' := s.versions + [arr], s.threads[t := s.threads[t].(pc := Reloading)];
    forall q | q in threads' ensures ThreadOk(versions', q, threads'[q]) {
      if q != t {
        assert ThreadOk(s.versions, q, s.threads[q]);
        assert !s.threads[q].HoldsLock();
      }
    }
  }

  lemma {:induction false} PublishOwned(s: State, t: nat, arr: Version)
    requires Inv(s) && t in s.threads && s.threads[t].pc.Built? && s.threads[t].pc.arr == arr
    ensures AllOwned(s.threads[t := s.threads[t].(pc := Reloading)], s.versions + [arr])
  {
    var versions', threads' := s.versions + [arr], s.threads[t := s.threads[t].(pc := Reloading)];
    assert ThreadOk(s.versions, t, s.threads[t]);
    FreshOk(arr);
    forall k | 0 <= k < |versions'| ensures SlotsOwned(threads', k, versions'[k]) {
      if k < |s.versions| {
        assert SlotsOwned(s.threads, k, s.versions[k]);
        forall j | 0 <= j < |s.versions[k].slots| ensures SlotOwned(threads', k, s.versions[k], j) {
          assert SlotOwned(s.threads, k, s.versions[k], j);
        }
      }
    }
  }

  lemma {:induction false} PublishStep(s: State, t: nat, th: Thread)
    requires Inv(s) && t in s.threads && th == s.threads[t] && th.pc.Built?
    ensures Inv(s.(versions := s.versions + [th.pc.arr], threads := s.threads[t := th.(pc := Reloading)]))
  {
    assert ThreadOk(s.versions, t, th);
    PublishVersions(s.versions, th.pc.arr);
    PublishThreads(s, t, th.pc.arr);
    PublishOwned(s, t, th.pc.arr);
  }

  // ----- Every step, every run -----

  lemma {:induction false} WriteActions(s: State, t: nat, th: Thread)
    requires Inv(s) && t in s.threads && th == s.threads[t] && Writes(th)
    requires th.v < |s.versions| && (th.pc.WritingEdge? ==> th.i < |s.versions[th.v].edge|)
    ensures Inv(PerformWrite(s, t, th))
  {
    var was := s.versions[th.v];
    WriterSlot(s, t, th, was);
    WriteStep(s, t, th, AfterWrite(th), th.v, was, Written(was, t, th), th.i - |was.snap|,
      if th.pc.Counting? then s.completed + multiset{th.u} else s.completed);
  }

  lemma {:induction false} ReserveActions(s: State, t: nat, a: Action, rate: real)
    requires Inv(s) && Enabled(s, t, a) && rate >= 1.0
    requires a.Reserve? || a.ReserveLocked?
    ensures Inv(Perform(s, t, a, rate))
  {
    var th := s.threads[t];
    var was := s.versions[th.v];
    ReserveStep(s, t, th, Perform(s, t, a, rate).threads[t], th.v, was, TakeSlot(was, t, th.u), was.size - |was.snap|);
  }

  /** The invariant survives every step of every thread. */
  lemma {:induction false} StepInv(s: State, t: nat, a: Action, rate: real)
    requires Inv(s) && Enabled(s, t, a) && rate >= 1.0
    ensures Inv(Perform(s, t, a, rate))
  {
    match a
    case Load(_) => LoadStep(s, t, a, rate);
    case Reload => LoadStep(s, t, a, rate);
    case Test => TestStep(s, t, rate);
    case Compare => CompareStep(s, t, rate);
    case Acquire => AcquireStep(s, t, rate);
    case Unlock => UnlockStep(s, t, rate);
    case EndWait => WaitEnds(s, t, rate);
    case Compacts => CompactStep(s, t, rate);
    case Publish => PublishStep(s, t, s.threads[t]);
    case Reserve => ReserveActions(s, t, a, rate);
    case ReserveLocked => ReserveActions(s, t, a, rate);
    case AddDeg => WriteActions(s, t, s.threads[t]);
    case WriteEdge => WriteActions(s, t, s.threads[t]);
    case CountWritten => WriteActions(s, t, s.threads[t]);
  }

  lemma {:induction false} NextInv(s: State, s': State, rate: real)
    requires rate >= 1.0 && Inv(s) && Next(s, s', rate)
    ensures Inv(s')
  {
    var t: nat, a: Action :| Enabled(s, t, a) && s' == Perform(s, t, a, rate);
    StepInv(s, t, a, rate);
  }

  /** Hence it holds in every state of every interleaving. */
  lemma {:induction false} RunInv(run: seq<State>, rate: real, k: nat)
    requires rate >= 1.0 && IsRun(run, rate) && k < |run|
    ensures Inv(run[k])
  {
    if k == 0 {
      InitialInv(run[0]);
    } else {
      RunInv(run, rate, k - 1);
      assert StepAt(run, k - 1, rate);
      NextInv(run[k - 1], run[k], rate);
    }
  }

  // ----- No record is lost or duplicated -----

  lemma {:induction false} DonePrefix(slots: seq<Slot>, n: nat)
    requires n <= |slots| && forall j | 0 <= j < |slots| :: if j < n then slots[j].Done? else slots[j].Free?
    ensures |Logged(slots)| == n && CountDone(slots) == n
    ensures forall j | 0 <= j < n :: Logged(slots)[j] == slots[j].u
  {
    if slots != [] {
      var m := |slots| - 1;
      DonePrefix(slots[..m], if n < |slots| then n else m);
    }
  }

  lemma {:induction false} QuietVersion(ver: Version)
    requires VersionOk(ver) && forall j | 0 <= j < |ver.slots| :: !ver.slots[j].Pending?
    ensures ver.physical == if ver.size < ver.cap then ver.size else ver.cap
    ensures ver.physical <= |ver.edge| && ver.edge[..ver.physical] == ver.snap + Records(Logged(ver.slots))
  {
    var n := if ver.size < ver.cap then ver.size - |ver.snap| else |ver.slots|;
    DonePrefix(ver.slots, n);
    QuietEdges(ver, n);
  }

  lemma {:induction false} QuietEdges(ver: Version, n: nat)
    requires ShapeOk(ver) && CellsOk(ver) && n <= |ver.slots| && |Logged(ver.slots)| == n
    requires forall j | 0 <= j < n :: ver.slots[j].Done? && Logged(ver.slots)[j] == ver.slots[j].u
    ensures ver.edge[..|ver.snap| + n] == ver.snap + Records(Logged(ver.slots))
  {
    forall k | 0 <= k < |ver.snap| + n ensures ver.edge[k] == (ver.snap + Records(Logged(ver.slots)))[k] {
      QuietEdge(ver, Logged(ver.slots), n, k);
    }
  }

  lemma {:induction false} QuietEdge(ver: Version, log: seq<Update>, n: nat, k: nat)
    requires ShapeOk(ver) && CellsOk(ver) && n <= |ver.slots| && |log| == n && k < |ver.snap| + n
    requires k >= |ver.snap| ==> ver.slots[k - |ver.snap|] == Done(log[k - |ver.snap|])
    ensures ver.edge[k] == (ver.snap + Records(log))[k]
  {
    if k >= |ver.snap| {
      var j := k - |ver.snap|;
      assert ver.edge[|ver.snap| + j] == SlotEdge(ver.slots[j]);
    }
  }

  ghost predicate Quiescent(s: State) {
    forall t | t in s.threads :: s.threads[t].pc == Idle
  }

  lemma {:induction false} QuietWhenIdle(s: State, k: nat)
    requires Inv(s) && Quiescent(s) && k < |s.versions|
    ensures forall j | 0 <= j < |s.versions[k].slots| :: !s.versions[k].slots[j].Pending?
  {
    assert SlotsOwned(s.threads, k, s.versions[k]);
    forall j | 0 <= j < |s.versions[k].slots| ensures !s.versions[k].slots[j].Pending? {
      assert SlotOwned(s.threads, k, s.versions[k], j);
    }
  }

  lemma {:induction false} CurrentIsHistory(versions: seq<Version>, ver: Version)
    requires VersionsOk(versions) && ver == versions[|versions| - 1] && WellFormed(map[], History(versions))
    requires VersionOk(ver) && forall j | 0 <= j < |ver.slots| :: !ver.slots[j].Pending?
    ensures ver.physical <= |ver.edge| && Replay(ver.edge[..ver.physical]) == Replay(Records(History(versions)))
  {
    var h, log := History(versions[..|versions| - 1]), Logged(ver.slots);
    QuietVersion(ver);
    WellFormedConcat(map[], h, log);
    ReplayWhole(h, log);
    ReplayConcat(map[], ver.snap, Records(log));
  }

  /** In every run, across any number of expansions, whenever no insert is in flight: the completed updates are exactly
      the slots of all versions in slot order, and if they form a well-formed history the current array replays to their
      latest-wins map. */
  lemma {:induction false} NoRecordLost(run: seq<State>, rate: real, k: nat)
    requires rate >= 1.0 && IsRun(run, rate) && k < |run| && Quiescent(run[k])
    ensures run[k].versions != [] && run[k].completed == multiset(History(run[k].versions))
    ensures var ver := run[k].versions[|run[k].versions| - 1];
            && ver.physical == (if ver.size < ver.cap then ver.size else ver.cap) <= |ver.edge|
            && (WellFormed(map[], History(run[k].versions)) ==>
                  Replay(ver.edge[..ver.physical]) == Replay(Records(History(run[k].versions))))
  {
    RunInv(run, rate, k);
    var s := run[k];
    var n := |s.versions| - 1;
    assert VersionOk(s.versions[n]);
    QuietWhenIdle(s, n);
    QuietVersion(s.versions[n]);
    if WellFormed(map[], History(s.versions)) {
      CurrentIsHistory(s.versions, s.versions[n]);
    }
  }

  /** A completed slot and its edge never change again. */
  ghost predicate Settled(s: State, v: nat, i: nat, u: Update) {
    v < |s.versions| && SettledIn(s.versions[v], i, u)
  }

  ghost predicate SettledIn(ver: Version, i: nat, u: Update) {
    && i < |ver.edge| && ver.edge[i] == u.Record()
    && |ver.snap| <= i && i - |ver.snap| < |ver.slots| && ver.slots[i - |ver.snap|] == Done(u)
  }

  lemma {:induction false} SettledWrite(ver: Version, t: nat, th: Thread, i: nat, u: Update)
    requires Writes(th) && VersionOk(ver) && |ver.snap| <= th.i < ver.cap
    requires ver.slots[th.i - |ver.snap|] == Pending(t, th.u, th.SlotPhase())
    requires SettledIn(ver, i, u)
    ensures SettledIn(Written(ver, t, th), i, u)
  {
  }

  lemma {:induction false} SettledReserve(ver: Version, t: nat, u': Update, i: nat, u: Update)
    requires VersionOk(ver) && SettledIn(ver, i, u)
    ensures SettledIn(TakeSlot(ver, t, u'), i, u)
  {
    assert !ver.slots[i - |ver.snap|].Free?;
  }

  /** All other actions leave the versions alone, or add one. */
  lemma {:induction false} QuietActions(s: State, t: nat, a: Action, rate: real)
    requires Enabled(s, t, a) && rate >= 1.0 && !a.Reserve? && !a.ReserveLocked? && !Writes(s.threads[t])
    ensures var s' := Perform(s, t, a, rate); |s'.versions| >= |s.versions| && s'.versions[..|s.versions|] == s.versions
  {
  }

  lemma {:induction false} SettledStep(s: State, t: nat, th: Thread, a: Action, rate: real, v: nat, ver: Version, i: nat,
                                       u: Update)
    requires Inv(s) && Enabled(s, t, a) && rate >= 1.0 && th == s.threads[t]
    requires v < |s.versions| && ver == s.versions[v] && SettledIn(ver, i, u)
    ensures Settled(Perform(s, t, a, rate), v, i, u)
  {
    assert VersionOk(s.versions[v]);
    if Writes(th) {
      if th.v == v {
        WriterSlot(s, t, th, ver);
        SettledWrite(ver, t, th, i, u);
      }
    } else if a.Reserve? || a.ReserveLocked? {
      SettledReserve(ver, t, th.u, i, u);
    } else {
      QuietActions(s, t, a, rate);
      assert Perform(s, t, a, rate).versions[..|s.versions|][v] == ver;
    }
  }

  lemma {:induction false} SettledNext(s: State, s': State, rate: real, v: nat, i: nat, u: Update)
    requires rate >= 1.0 && Inv(s) && Next(s, s', rate) && Settled(s, v, i, u)
    ensures Settled(s', v, i, u)
  {
    var t: nat, a: Action :| Enabled(s, t, a) && s' == Perform(s, t, a, rate);
    SettledStep(s, t, s.threads[t], a, rate, v, s.versions[v], i, u);
  }

  lemma {:induction false} RunStep(run: seq<State>, rate: real, m: nat)
    requires rate >= 1.0 && IsRun(run, rate) && 0 < m < |run|
    ensures Inv(run[m - 1]) && Next(run[m - 1], run[m], rate)
  {
    RunInv(run, rate, m - 1);
    assert StepAt(run, m - 1, rate);
  }

  lemma {:induction false} SettledAt(run: seq<State>, rate: real, m: nat, v: nat, i: nat, u: Update)
    requires rate >= 1.0 && IsRun(run, rate) && 0 < m < |run| && Settled(run[m - 1], v, i, u)
    ensures Settled(run[m], v, i, u)
  {
    RunStep(run, rate, m);
    SettledNext(run[m - 1], run[m], rate, v, i, u);
  }

  /** Each completed insert owns one slot for good: whatever any thread does later, its record stays there. */
  lemma {:induction false} SlotsNeverOverwritten(run: seq<State>, rate: real, k: nat, m: nat, v: nat, i: nat, u: Update)
    requires rate >= 1.0 && IsRun(run, rate) && k <= m < |run| && Settled(run[k], v, i, u)
    ensures Settled(run[m], v, i, u)
    decreases m
  {
    if k < m {
      SlotsNeverOverwritten(run, rate, k, m - 1, v, i, u);
      SettledAt(run, rate, m, v, i, u);
    }
  }

  lemma {:induction false} CountingSettles(was: Version, t: nat, th: Thread, j: nat)
    requires th.pc.Counting? && VersionOk(was) && th.i == |was.snap| + j && th.i < was.cap
    requires was.slots[j] == Pending(t, th.u, EdgeWritten)
    ensures SettledIn(Written(was, t, th), th.i, th.u)
  {
    assert was.edge[|was.snap| + j] == SlotEdge(was.slots[j]);
  }

  /** When an insert returns, its record is settled in the slot it reserved. */
  lemma {:induction false} ReturnSettles(s: State, t: nat, rate: real)
    requires Inv(s) && Enabled(s, t, CountWritten) && rate >= 1.0
    ensures var th := s.threads[t];
            Settled(Perform(s, t, CountWritten, rate), th.v, th.i, th.u)
  {
    var th := s.threads[t];
    var was := s.versions[th.v];
    WriterSlot(s, t, th, was);
    CountingSettles(was, t, th, th.i - |was.snap|);
  }

  // ----- The expansion wait -----

  /** The thread has reserved slot `i` of version `v` and has not yet counted it as written. */
  predicate Owes(versions: seq<Version>, th: Thread, v: nat) {
    th.HasSlot() && th.v == v && v < |versions| && th.i < versions[v].cap
  }

  ghost function Owing(s: State, v: nat): set<nat> {
    set t | t in s.threads && Owes(s.versions, s.threads[t], v)
  }

  ghost function PendingTids(slots: seq<Slot>): set<nat> {
    set j | 0 <= j < |slots| && slots[j].Pending? :: slots[j].tid
  }

  lemma {:induction false} CountTids(slots: seq<Slot>)
    requires forall i, j | 0 <= i < j < |slots| && slots[i].Pending? && slots[j].Pending? :: slots[i].tid != slots[j].tid
    ensures |PendingTids(slots)| == CountPending(slots)
  {
    if slots != [] {
      var n := |slots| - 1;
      CountTids(slots[..n]);
      assert forall j | 0 <= j < n :: slots[..n][j] == slots[j];
      if slots[n].Pending? {
        assert PendingTids(slots) == PendingTids(slots[..n]) + {slots[n].tid};
        assert slots[n].tid !in PendingTids(slots[..n]);
      } else {
        assert PendingTids(slots) == PendingTids(slots[..n]);
      }
    }
  }

  lemma {:induction false} OwingIsPending(s: State, v: nat)
    requires Inv(s) && v < |s.versions|
    ensures Owing(s, v) == PendingTids(s.versions[v].slots)
    ensures |Owing(s, v)| == CountPending(s.versions[v].slots)
  {
    var ver := s.versions[v];
    assert SlotsOwned(s.threads, v, ver) && VersionOk(ver);
    forall j | 0 <= j < |ver.slots| && ver.slots[j].Pending?
      ensures ver.slots[j].tid in Owing(s, v) && s.threads[ver.slots[j].tid].i == |ver.snap| + j
    {
      assert SlotOwned(s.threads, v, ver, j);
    }
    forall t | t in Owing(s, v) ensures t in PendingTids(ver.slots) {
      assert ThreadOk(s.versions, t, s.threads[t]);
      assert ver.slots[s.threads[t].i - |ver.snap|].tid == t;
    }
    CountTids(ver.slots);
  }

  /** In every reachable state and for every version: the written slots and the threads that still owe a write add up to
      the slots handed out. */
  lemma {:induction false} WrittenPlusOwing(run: seq<State>, rate: real, k: nat, v: nat)
    requires rate >= 1.0 && IsRun(run, rate) && k < |run| && v < |run[k].versions|
    ensures var ver := run[k].versions[v];
            ver.physical + |Owing(run[k], v)| == if ver.size < ver.cap then ver.size else ver.cap
  {
    RunInv(run, rate, k);
    var ver := run[k].versions[v];
    assert VersionOk(ver);
    OwingIsPending(run[k], v);
    CountPrefix(ver.slots, if ver.size < ver.cap then ver.size - |ver.snap| else |ver.slots|);
  }

  lemma {:induction false} SomeoneOwes(s: State, v: nat)
    requires Inv(s) && v < |s.versions| && s.versions[v].size >= s.versions[v].cap
    requires s.versions[v].physical != s.versions[v].cap
    ensures |Owing(s, v)| > 0
  {
    var ver := s.versions[v];
    assert VersionOk(ver);
    OwingIsPending(s, v);
    CountPrefix(ver.slots, |ver.slots|);
  }

  /** The next step of a thread that owes a write. */
  function NextWrite(th: Thread): Action
    requires th.HasSlot()
  {
    match th.pc
    case Reserved => Test
    case Unlocking => Unlock
    case AddingDeg => AddDeg
    case WritingEdge => WriteEdge
    case _ => CountWritten
  }

  /** While the lock holder waits for unwritten slots, some other thread owes a write, and its next step is enabled and
      does not need the lock. */
  lemma {:induction false} WaitHasWriter(run: seq<State>, rate: real, k: nat, t: nat) returns (q: nat)
    requires rate >= 1.0 && IsRun(run, rate) && k < |run|
    requires t in run[k].threads && run[k].threads[t].pc.Waiting? && !Enabled(run[k], t, EndWait)
    ensures q != t && q in run[k].threads && Owes(run[k].versions, run[k].threads[q], run[k].threads[t].v)
    ensures !run[k].threads[q].HoldsLock() && Enabled(run[k], q, NextWrite(run[k].threads[q]))
  {
    RunInv(run, rate, k);
    var s := run[k];
    var v := s.threads[t].v;
    assert ThreadOk(s.versions, t, s.threads[t]);
    SomeoneOwes(s, v);
    q :| q in Owing(s, v);
    assert VersionOk(s.versions[v]);
    assert ThreadOk(s.versions, q, s.threads[q]);
  }

  /** Some thread has a step that changes the state, other than beginning a new insert. */
  ghost predicate CanMove(s: State, rate: real)
    requires rate >= 1.0
  {
    exists t: nat, a: Action :: Enabled(s, t, a) && !a.Load? && Perform(s, t, a, rate) != s
  }

  /** The next step of a thread that waits for nobody. */
  function OwnStep(th: Thread): Action {
    if th.HasSlot() then NextWrite(th)
    else
      match th.pc
      case Comparing => Compare
      case Waiting => EndWait
      case Compacting => Compacts
      case Built(_) => Publish
      case Reloading => Reload
      case Reserving => ReserveLocked
      case _ => Reserve
  }

  lemma {:induction false} OwnStepMoves(s: State, t: nat, th: Thread, rate: real)
    requires Inv(s) && t in s.threads && th == s.threads[t] && rate >= 1.0 && !th.pc.Idle? && !th.pc.Locking?
    requires th.pc.Waiting? ==> Enabled(s, t, EndWait)
    ensures CanMove(s, rate)
  {
    assert ThreadOk(s.versions, t, th);
    assert th.v < |s.versions| ==> VersionOk(s.versions[th.v]);
    var a := OwnStep(th);
    assert Enabled(s, t, a);
    assert Perform(s, t, a, rate).threads[t].pc != th.pc;
  }

  /** No deadlock anywhere: in every reachable state with an insert in flight, some thread has a step that changes the
      state. */
  lemma {:induction false} SomeoneMoves(run: seq<State>, rate: real, k: nat, t: nat)
    requires rate >= 1.0 && IsRun(run, rate) && k < |run| && t in run[k].threads && !run[k].threads[t].pc.Idle?
    ensures CanMove(run[k], rate)
  {
    RunInv(run, rate, k);
    var s := run[k];
    var q := if s.threads[t].pc.Locking? && s.lock.HeldBy? then s.lock.tid else t;
    if s.threads[q].pc.Locking? {
      assert Enabled(s, t, Acquire) && Perform(s, t, Acquire, rate).lock != s.lock;
    } else if s.threads[q].pc.Waiting? && !Enabled(s, q, EndWait) {
      var w := WaitHasWriter(run, rate, k, q);
      OwnStepMoves(s, w, s.threads[w], rate);
    } else {
      OwnStepMoves(s, q, s.threads[q], rate);
    }
  }

  /** Threads that own a slot of `v` but have not yet looked at its number. */
  ghost function Untested(s: State, v: nat): set<nat> {
    set t | t in s.threads && s.threads[t].pc.Reserved? && Owes(s.versions, s.threads[t], v)
  }

  ghost predicate Waits(s: State, t: nat, v: nat) {
    t in s.threads && s.threads[t].pc.Waiting? && s.threads[t].v == v
  }

  /** What the wait waits for: writes outstanding, then slot numbers not yet looked at. */
  ghost predicate Closer(s: State, s': State, v: nat)
    requires v < |s.versions| && v < |s'.versions|
  {
    || WaitWork(s'.versions[v].slots) < WaitWork(s.versions[v].slots)
    || (WaitWork(s'.versions[v].slots) == WaitWork(s.versions[v].slots) && |Untested(s', v)| < |Untested(s, v)|)
  }

  ghost predicate NoFurther(s: State, s': State, v: nat)
    requires v < |s.versions| && v < |s'.versions|
  {
    || Closer(s, s', v)
    || (WaitWork(s'.versions[v].slots) == WaitWork(s.versions[v].slots) && Untested(s', v) <= Untested(s, v))
  }

  lemma {:induction false} WriteWork(ver: Version, t: nat, th: Thread, after: Version)
    requires Writes(th) && VersionOk(ver) && |ver.snap| <= th.i < ver.cap
    requires ver.slots[th.i - |ver.snap|] == Pending(t, th.u, th.SlotPhase()) && after == Written(ver, t, th)
    ensures WaitWork(after.slots) == WaitWork(ver.slots) - 1 && !Full(ver)
  {
    WriteCounters(ver, t, th);
    SlotUpdate(ver.slots, th.i - |ver.snap|, after.slots[th.i - |ver.snap|]);
  }

  /** A write in the awaited version brings the wait closer to its end. */
  lemma {:induction false} WriterCloser(s: State, t: nat, q: nat, v: nat, th: Thread)
    requires Inv(s) && Waits(s, t, v) && v < |s.versions| && q in s.threads && th == s.threads[q] && Writes(th)
    requires th.v < |s.versions| && (th.pc.WritingEdge? ==> th.i < |s.versions[th.v].edge|)
    ensures th.v == v && Closer(s, PerformWrite(s, q, th), v) && Waits(PerformWrite(s, q, th), t, v)
  {
    var was := s.versions[th.v];
    var ver := Written(was, q, th);
    assert ThreadOk(s.versions, t, s.threads[t]);
    assert th.v < |s.versions| - 1 ==> Full(s.versions[th.v]);
    WriterSlot(s, q, th, was);
    WriteWork(was, q, th, ver);
    assert PerformWrite(s, q, th).versions[v] == ver;
  }

  lemma {:induction false} TestCloser(s: State, t: nat, q: nat, v: nat, rate: real)
    requires Inv(s) && Waits(s, t, v) && v < |s.versions| && rate >= 1.0
    requires Enabled(s, q, Test) && Owes(s.versions, s.threads[q], v)
    ensures Closer(s, Perform(s, q, Test, rate), v) && Waits(Perform(s, q, Test, rate), t, v)
  {
    var s' := Perform(s, q, Test, rate);
    assert s'.versions == s.versions;
    assert Untested(s', v) == Untested(s, v) - {q};
    assert q in Untested(s, v);
  }

  lemma {:induction false} ReserveNoFurther(s: State, t: nat, q: nat, a: Action, v: nat, rate: real)
    requires Inv(s) && Waits(s, t, v) && v < |s.versions| && rate >= 1.0
    requires Enabled(s, q, a) && (a.Reserve? || a.ReserveLocked?)
    ensures NoFurther(s, Perform(s, q, a, rate), v) && Waits(Perform(s, q, a, rate), t, v)
  {
    var s' := Perform(s, q, a, rate);
    var th := s.threads[q];
    assert ThreadOk(s.versions, t, s.threads[t]);
    assert VersionOk(s.versions[v]);
    assert s'.versions[v].slots == s.versions[v].slots;
    forall p | p in Untested(s', v) ensures p in Untested(s, v) {
      assert p != q;
    }
  }

  lemma {:induction false} OtherNoFurther(s: State, t: nat, q: nat, a: Action, v: nat, rate: real)
    requires Inv(s) && Waits(s, t, v) && v < |s.versions| && rate >= 1.0 && q != t
    requires Enabled(s, q, a) && !a.Reserve? && !a.ReserveLocked? && !Writes(s.threads[q])
    ensures !s.threads[q].HoldsLock()
    ensures var s' := Perform(s, q, a, rate);
            s'.versions == s.versions && Untested(s', v) <= Untested(s, v) && Waits(s', t, v)
  {
    assert s.threads[t].HoldsLock();
    assert !s.threads[q].HoldsLock();
  }

  /** The wait cannot be prolonged: no step of another thread adds to what it waits for, and every step of a thread that
      owes a write in the awaited version takes something away. With WaitHasWriter, the wait ends in every fair run. */
  lemma {:induction false} WaitEndsSoon(s: State, t: nat, q: nat, a: Action, v: nat, rate: real)
    requires Inv(s) && Waits(s, t, v) && v < |s.versions| && rate >= 1.0 && q != t && Enabled(s, q, a)
    ensures var s' := Perform(s, q, a, rate);
            && v < |s'.versions| && Waits(s', t, v) && NoFurther(s, s', v)
            && (Owes(s.versions, s.threads[q], v) ==> Closer(s, s', v))
  {
    var th := s.threads[q];
    if Writes(th) {
      WriterCloser(s, t, q, v, th);
    } else if a.Reserve? || a.ReserveLocked? {
      ReserveNoFurther(s, t, q, a, v, rate);
    } else {
      OtherNoFurther(s, t, q, a, v, rate);
      if Owes(s.versions, th, v) {
        TestCloser(s, t, q, v, rate);
      }
    }
  }

  lemma {:induction false} WriterNotFull(ver: Version, t: nat, th: Thread)
    requires Writes(th) && VersionOk(ver) && |ver.snap| <= th.i < ver.cap
    requires ver.slots[th.i - |ver.snap|] == Pending(t, th.u, th.SlotPhase())
    ensures !Full(ver)
  {
    if Full(ver) {
      AllDone(ver.slots);
    }
  }

  /** Once a version is completely written nobody can be writing anywhere. */
  lemma {:induction false} NoWriters(s: State, q: nat, th: Thread, ver: Version)
    requires Inv(s) && Full(s.versions[|s.versions| - 1]) && q in s.threads && th == s.threads[q]
    requires Writes(th) ==> th.v < |s.versions| && ver == s.versions[th.v]
    ensures !Writes(th)
  {
    if Writes(th) {
      assert th.v < |s.versions| - 1 ==> Full(s.versions[th.v]);
      WriterSlot(s, q, th, ver);
      WriterNotFull(ver, q, th);
    }
  }

  /** While a thread compacts a version, the version's buffer and counters are the complete snapshot and log. */
  lemma {:induction false} CompactionInputsComplete(s: State, t: nat)
    requires Inv(s) && t in s.threads && s.threads[t].pc.Compacting?
    ensures s.threads[t].v < |s.versions|
    ensures var ver := s.versions[s.threads[t].v];
            && ver.edge == ver.snap + Records(Logged(ver.slots)) && ver.physical == ver.cap
            && ver.deg == |ver.snap| + SumDelta(Logged(ver.slots))
  {
    assert ThreadOk(s.versions, t, s.threads[t]);
    assert VersionOk(s.versions[s.threads[t].v]);
    FullIsLogged(s.versions[s.threads[t].v]);
  }

  /** And no other thread can change them, so reading them word by word sees one value. */
  lemma {:induction false} CompactionInputsFrozen(s: State, t: nat, q: nat, a: Action, rate: real)
    requires Inv(s) && t in s.threads && s.threads[t].pc.Compacting? && rate >= 1.0 && q != t && Enabled(s, q, a)
    ensures var v := s.threads[t].v;
            && v < |s.versions| && v < |Perform(s, q, a, rate).versions|
            && var was, now := s.versions[v], Perform(s, q, a, rate).versions[v];
               now.edge == was.edge && now.deg == was.deg && now.physical == was.physical && now.snap == was.snap
  {
    assert ThreadOk(s.versions, t, s.threads[t]);
    assert ThreadOk(s.versions, q, s.threads[q]);
    NoWriters(s, q, s.threads[q], if Writes(s.threads[q]) then s.versions[s.threads[q].v] else s.versions[0]);
  }

  /** `arr` has a slot for every thread that has overflowed `ver` so far and eight more, as long as its edges are no more than
      the degree counter says; and it is no larger than the rate, the degree and those threads ask for, unless the edges
      alone need it. */
  ghost predicate HasRoom(ver: Version, arr: Version, rate: real) {
    && (|arr.snap| <= ver.deg ==> arr.cap - |arr.snap| >= ver.size - ver.cap + 9)
    && (|| arr.cap as real <= (if ver.deg > 0 then ver.deg as real * rate else 0.0) + (ver.size - ver.cap + 9) as real
        || arr.cap <= |arr.snap| + 7)
  }

  lemma {:induction false} CapacityBounds(ver: Version, rate: real)
    requires rate >= 1.0 && ver.size >= ver.cap
    ensures HasRoom(ver, CompactVersion(ver, rate), rate)
  {
    var overshoot: nat := ver.size - ver.cap + 1;
    AllocationExact(ver.deg, rate, overshoot);
    GrownTight(Allocation(ver.deg, rate, overshoot), |CompactVersion(ver, rate).snap|);
  }

  /** The array an expansion builds has room for everybody waiting. */
  lemma {:induction false} RoomForWaiting(s: State, t: nat, rate: real)
    requires Enabled(s, t, Compacts) && rate >= 1.0
    ensures Perform(s, t, Compacts, rate).threads[t].pc.Built?
    ensures HasRoom(s.versions[s.threads[t].v], Perform(s, t, Compacts, rate).threads[t].pc.arr, rate)
  {
    CapacityBounds(s.versions[s.threads[t].v], rate);
  }

  /** If updates and deletes since the snapshot named live edges, that is what the degree counter says. */
  lemma {:induction false} StrictRoom(ver: Version, rate: real)
    requires VersionOk(ver) && Full(ver) && rate >= 1.0
    requires IsSnapshot(ver.snap) && Strict(Replay(ver.snap), Logged(ver.slots))
    ensures |CompactVersion(ver, rate).snap| == ver.deg
  {
    FullIsLogged(ver);
    StrictSize(ver.snap, Logged(ver.slots), Compact(ver.edge, |ver.snap|, ver.deg));
  }

  lemma {:induction false} StrictSize(snap: seq<Edge>, log: seq<Update>, r: seq<Edge>)
    requires IsSnapshot(snap) && Strict(Replay(snap), log)
    requires r == Compact(snap + Records(log), |snap|, |snap| + SumDelta(log))
    ensures |r| == |snap| + SumDelta(log)
  {
    StrictIsWellFormed(Replay(snap), log);
    CompactPreservesMeaning(snap, log);
    StrictDegree(snap, log);
    ReplaySnapshot(r);
  }
}
