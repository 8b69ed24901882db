/** One thread's insert, step by step with nobody else moving, is the sequential insert.

    From any state at rest that concurrent inserts may have left behind, a thread that runs `Insert` alone goes through its
    loads, reservations, expansions and writes and ends with the current array that the sequential description gives. */
module SoloInsert {
  import opened EdgeRecords
  import opened Compaction
  import opened EdgeArrays
  import opened VertexLog
  import opened InsertProtocol

  /** A version at rest, as the sequential description sees it. */
  function Sequential(ver: InsertProtocol.Version): ArrayState {
    ArrayState(ver.cap, ver.snap, Logged(ver.slots), 0)
  }

  /** The same array, however many slots have been scanned on the way. */
  predicate SameArray(a: ArrayState, b: ArrayState) {
    a.cap == b.cap && a.snap == b.snap && a.log == b.log
  }

  lemma {:induction false} InsertedSame(a: ArrayState, b: ArrayState, u: Update, rate: real)
    requires rate >= 1.0 && SameArray(a, b) && a.Used() <= a.cap
    ensures SameArray(Inserted(a, u, rate), Inserted(b, u, rate))
    decreases if a.Used() < a.cap then 0 else if a.log == [] then 1 else 2
  {
    if a.Used() >= a.cap {
      InsertedSame(Expanded(a, rate), Expanded(b, rate), u, rate);
    }
  }

  // ----- Who is behind an overflow -----

  /** Thread `t` has found the current version full and has not replaced it yet. */
  ghost predicate InCharge(s: State, t: nat) {
    && t in s.threads && s.versions != [] && s.threads[t].v == |s.versions| - 1
    && var th := s.threads[t];
       || (th.HasSlot() && th.i >= s.versions[|s.versions| - 1].cap)
       || th.pc.Locking? || th.pc.Comparing? || th.pc.Waiting? || th.pc.Compacting? || th.pc.Built?
  }

  /** A current version that has been asked for too many slots is being replaced. */
  ghost predicate OverflowHandled(s: State) {
    && s.versions != []
    && var ver := s.versions[|s.versions| - 1];
       ver.size > ver.cap ==> exists t :: InCharge(s, t)
  }

  /** A thread in charge stays so while it keeps its place and the current version its capacity. */
  lemma {:induction false} StaysInCharge(s: State, s': State, q: nat)
    requires InCharge(s, q) && q in s'.threads && s'.threads[q] == s.threads[q] && |s'.versions| == |s.versions|
    requires s'.versions[|s.versions| - 1].cap == s.versions[|s.versions| - 1].cap
    ensures InCharge(s', q)
  {
  }

  lemma {:induction false} ReserveShape(s: State, t: nat, th: Thread, a: Action, rate: real)
    requires Enabled(s, t, a) && rate >= 1.0 && (a.Reserve? || a.ReserveLocked?) && th == s.threads[t]
    ensures th.v < |s.versions| && (th.pc.Loaded? || th.pc.Reserving?)
    ensures var s' := Perform(s, t, a, rate);
            && s'.versions == s.versions[th.v := TakeSlot(s.versions[th.v], t, th.u)]
            && s'.threads == s.threads[t := s'.threads[t]] && t in s'.threads
            && s'.threads[t].HasSlot() && s'.threads[t].v == th.v && s'.threads[t].i == s.versions[th.v].size
  {
  }

  lemma {:induction false} ReserveHandled(s: State, t: nat, a: Action, rate: real)
    requires OverflowHandled(s) && Enabled(s, t, a) && rate >= 1.0 && (a.Reserve? || a.ReserveLocked?)
    ensures OverflowHandled(Perform(s, t, a, rate))
  {
    var s' := Perform(s, t, a, rate);
    var n := |s.versions| - 1;
    ReserveShape(s, t, s.threads[t], a, rate);
    if s.threads[t].v == n {
      if s.versions[n].size >= s.versions[n].cap {
        assert InCharge(s', t);
      }
    } else if s.versions[n].size > s.versions[n].cap {
      var q :| InCharge(s, q);
      StaysInCharge(s, s', q);
    }
  }

  lemma {:induction false} OthersHandled(s: State, t: nat, a: Action, rate: real)
    requires Inv(s) && OverflowHandled(s) && Enabled(s, t, a) && rate >= 1.0
    requires !a.Reserve? && !a.ReserveLocked? && !a.Publish?
    ensures OverflowHandled(Perform(s, t, a, rate))
  {
    var s' := Perform(s, t, a, rate);
    var n := |s.versions| - 1;
    SizesKept(s, t, a, rate);
    if s.versions[n].size > s.versions[n].cap {
      var q :| InCharge(s, q);
      if q == t {
        assert ThreadOk(s.versions, q, s.threads[q]);
        MovesInCharge(s, t, a, rate);
      } else {
        StaysInCharge(s, s', q);
      }
    }
  }

  /** A thread in charge that moves stays in charge until it publishes. */
  lemma {:induction false} MovesInCharge(s: State, t: nat, a: Action, rate: real)
    requires InCharge(s, t) && Enabled(s, t, a) && rate >= 1.0 && ThreadOk(s.versions, t, s.threads[t])
    requires !a.Reserve? && !a.ReserveLocked? && !a.Publish?
    ensures InCharge(Perform(s, t, a, rate), t)
  {
  }

  lemma {:induction false} SizesKept(s: State, t: nat, a: Action, rate: real)
    requires Enabled(s, t, a) && rate >= 1.0 && !a.Reserve? && !a.ReserveLocked? && !a.Publish?
    ensures var s' := Perform(s, t, a, rate);
            && |s'.versions| == |s.versions| && t in s'.threads && s'.threads == s.threads[t := s'.threads[t]]
            && forall k | 0 <= k < |s.versions| :: s'.versions[k].size == s.versions[k].size && s'.versions[k].cap == s.versions[k].cap
  {
  }

  lemma {:induction false} NextHandled(s: State, s': State, rate: real)
    requires rate >= 1.0 && Inv(s) && OverflowHandled(s) && Next(s, s', rate)
    ensures OverflowHandled(s')
  {
    var t: nat, a: Action :| Enabled(s, t, a) && s' == Perform(s, t, a, rate);
    if a.Reserve? || a.ReserveLocked? {
      ReserveHandled(s, t, a, rate);
    } else if a.Publish? {
      assert ThreadOk(s.versions, t, s.threads[t]);
    } else {
      OthersHandled(s, t, a, rate);
    }
  }

  lemma {:induction false} RunHandled(run: seq<State>, rate: real, k: nat)
    requires rate >= 1.0 && IsRun(run, rate) && k < |run|
    ensures OverflowHandled(run[k])
  {
    if k > 0 {
      RunHandled(run, rate, k - 1);
      RunStep(run, rate, k);
      NextHandled(run[k - 1], run[k], rate);
    }
  }

  // ----- Steps of a thread that runs alone -----

  /** Thread `t` stands at `th`, all others are idle, the current version is `ver`. */
  ghost predicate Solo(s: State, t: nat, th: Thread, ver: InsertProtocol.Version, lock: Lock) {
    && t in s.threads && s.threads[t] == th && (forall q | q in s.threads && q != t :: s.threads[q].pc.Idle?)
    && s.versions != [] && s.versions[|s.versions| - 1] == ver && s.lock == lock
  }

  ghost predicate EndsIn(run: seq<State>, rate: real, s: State)
    requires rate >= 1.0
  {
    IsRun(run, rate) && run[|run| - 1] == s
  }

  lemma {:induction false} Extend(run: seq<State>, rate: real, s: State, t: nat, a: Action) returns (run': seq<State>, s': State)
    requires rate >= 1.0 && EndsIn(run, rate, s) && Enabled(s, t, a)
    ensures EndsIn(run', rate, s') && s' == Perform(s, t, a, rate) && run <= run' && |run'| == |run| + 1
  {
    s' := Perform(s, t, a, rate);
    run' := run + [s'];
    assert Next(s, s', rate);
    forall k | 0 <= k < |run'| - 1 ensures StepAt(run', k, rate) {
      if k < |run| - 1 {
        assert StepAt(run, k, rate);
      }
    }
  }

  lemma {:induction false} SoloStart(s: State, t: nat, th: Thread, ver: InsertProtocol.Version, u: Update, rate: real)
    requires Solo(s, t, th, ver, Open) && th.pc.Idle? && rate >= 1.0
    ensures Enabled(s, t, Load(u))
    ensures var s1 := Perform(s, t, Load(u), rate);
            && Enabled(s1, t, Reserve)
            && Solo(Perform(s1, t, Reserve, rate), t, Thread(Reserved, u, |s.versions| - 1, ver.size), TakeSlot(ver, t, u), Open)
            && |Perform(s1, t, Reserve, rate).versions| == |s.versions|
  {
  }

  lemma {:induction false} SoloTest(s: State, t: nat, th: Thread, ver: InsertProtocol.Version, rate: real)
    requires Solo(s, t, th, ver, Open) && th.pc.Reserved? && th.v == |s.versions| - 1 && rate >= 1.0
    ensures Enabled(s, t, Test)
    ensures var s' := Perform(s, t, Test, rate);
            && |s'.versions| == |s.versions|
            && Solo(s', t, th.(pc := if th.i >= ver.cap then Locking else AddingDeg), ver, Open)
  {
  }

  lemma {:induction false} SoloLock(s: State, t: nat, th: Thread, ver: InsertProtocol.Version, rate: real)
    requires Solo(s, t, th, ver, Open) && th.pc.Locking? && th.v == |s.versions| - 1 && rate >= 1.0
    ensures Enabled(s, t, Acquire) && Enabled(Perform(s, t, Acquire, rate), t, Compare)
    ensures var s' := Perform(Perform(s, t, Acquire, rate), t, Compare, rate);
            |s'.versions| == |s.versions| && Solo(s', t, th.(pc := Waiting), ver, HeldBy(t))
  {
  }

  lemma {:induction false} SoloCompact(s: State, t: nat, th: Thread, ver: InsertProtocol.Version, rate: real)
    requires Solo(s, t, th, ver, HeldBy(t)) && th.pc.Waiting? && th.v == |s.versions| - 1 && rate >= 1.0
    requires ver.physical == ver.cap <= ver.size
    ensures Enabled(s, t, EndWait) && Enabled(Perform(s, t, EndWait, rate), t, Compacts)
    ensures var s' := Perform(Perform(s, t, EndWait, rate), t, Compacts, rate);
            |s'.versions| == |s.versions| && Solo(s', t, th.(pc := Built(CompactVersion(ver, rate))), ver, HeldBy(t))
  {
  }

  lemma {:induction false} SoloPublish(s: State, t: nat, th: Thread, ver: InsertProtocol.Version, rate: real)
    requires Solo(s, t, th, ver, HeldBy(t)) && th.pc.Built? && rate >= 1.0
    ensures Enabled(s, t, Publish) && Enabled(Perform(s, t, Publish, rate), t, Reload)
    ensures var s' := Perform(Perform(s, t, Publish, rate), t, Reload, rate);
            && |s'.versions| == |s.versions| + 1
            && Solo(s', t, th.(pc := Reserving, v := |s.versions|), th.pc.arr, HeldBy(t))
  {
  }

  lemma {:induction false} SoloReserve(s: State, t: nat, th: Thread, ver: InsertProtocol.Version, rate: real)
    requires Solo(s, t, th, ver, HeldBy(t)) && th.pc.Reserving? && th.v == |s.versions| - 1 && rate >= 1.0
    ensures Enabled(s, t, ReserveLocked) && Enabled(Perform(s, t, ReserveLocked, rate), t, Unlock)
    ensures var s' := Perform(Perform(s, t, ReserveLocked, rate), t, Unlock, rate);
            && |s'.versions| == |s.versions|
            && Solo(s', t, th.(pc := Reserved, i := ver.size), TakeSlot(ver, t, th.u), Open)
  {
  }

  lemma {:induction false} SoloWrite(s: State, t: nat, th: Thread, ver: InsertProtocol.Version, a: Action, rate: real)
    requires Solo(s, t, th, ver, Open) && Writes(th) && th.v == |s.versions| - 1 && rate >= 1.0 && th.i < |ver.edge|
    requires a == if th.pc.AddingDeg? then AddDeg else if th.pc.WritingEdge? then WriteEdge else CountWritten
    ensures Enabled(s, t, a)
    ensures var s' := Perform(s, t, a, rate);
            |s'.versions| == |s.versions| && Solo(s', t, AfterWrite(th), Written(ver, t, th), Open)
  {
  }

  // ----- From a free slot to the end -----

  /** The first `n` slots are written, the rest are free. */
  ghost predicate WrittenTo(slots: seq<Slot>, n: nat) {
    n <= |slots| && forall j | 0 <= j < |slots| :: if j < n then slots[j].Done? else slots[j].Free?
  }

  /** Writing the next slot adds its update to the log. */
  lemma {:induction false} LogGrows(slots: seq<Slot>, n: nat, u: Update)
    requires WrittenTo(slots, n) && n < |slots|
    ensures WrittenTo(slots[n := Done(u)], n + 1) && Logged(slots[n := Done(u)]) == Logged(slots) + [u]
  {
    var more := slots[n := Done(u)];
    DonePrefix(slots, n);
    DonePrefix(more, n + 1);
    forall j | 0 <= j <= n ensures Logged(more)[j] == (Logged(slots) + [u])[j] {}
  }

  /** The three writes turn the reserved slot into a written one. */
  lemma {:induction false} ThreeWrites(was: InsertProtocol.Version, t: nat, th: Thread, n: nat)
    requires ShapeOk(was) && th.pc.AddingDeg? && th.i == |was.snap| + n && n < |was.slots| && WrittenTo(was.slots, n)
    requires was.size == |was.snap| + n
    ensures var ver := TakeSlot(was, t, th.u);
            && th.i < |ver.edge|
            && var ver3 := Written(Written(Written(ver, t, th), t, th.(pc := WritingEdge)), t, th.(pc := Counting));
               && ver3.cap == was.cap && ver3.snap == was.snap && ver3.slots == was.slots[n := Done(th.u)]
               && ver3.size == was.size + 1
  {
    var ver := TakeSlot(was, t, th.u);
    var ver1 := Written(ver, t, th);
    var ver2 := Written(ver1, t, th.(pc := WritingEdge));
    assert ver1.slots == was.slots[n := Pending(t, th.u, DegAdded)];
    assert ver2.slots == was.slots[n := Pending(t, th.u, EdgeWritten)];
  }

  /** The thread has just reserved a slot of the current version `TakeSlot(was, ..)`, whose older slots are all written. */
  ghost predicate Standing(s: State, t: nat, u: Update, was: InsertProtocol.Version, n: nat) {
    && VersionOk(was) && WrittenTo(was.slots, n) && was.size == |was.snap| + n
    && s.versions != [] && Solo(s, t, Thread(Reserved, u, |s.versions| - 1, was.size), TakeSlot(was, t, u), Open)
  }

  lemma {:induction false} WriteOn(run: seq<State>, rate: real, s: State, t: nat, th: Thread, ver: InsertProtocol.Version, a: Action)
    returns (run': seq<State>, s': State)
    requires rate >= 1.0 && EndsIn(run, rate, s) && Solo(s, t, th, ver, Open) && Writes(th) && th.v == |s.versions| - 1
    requires th.i < |ver.edge|
    requires a == if th.pc.AddingDeg? then AddDeg else if th.pc.WritingEdge? then WriteEdge else CountWritten
    ensures EndsIn(run', rate, s') && run <= run' && |s'.versions| == |s.versions|
    ensures Solo(s', t, AfterWrite(th), Written(ver, t, th), Open)
    ensures |run'| == |run| + 1
  {
    SoloWrite(s, t, th, ver, a, rate);
    run', s' := Extend(run, rate, s, t, a);
  }

  lemma {:induction false} TestOn(run: seq<State>, rate: real, s: State, t: nat, th: Thread, ver: InsertProtocol.Version)
    returns (run': seq<State>, s': State)
    requires rate >= 1.0 && EndsIn(run, rate, s) && Solo(s, t, th, ver, Open) && th.pc.Reserved? && th.v == |s.versions| - 1
    ensures EndsIn(run', rate, s') && run <= run' && |s'.versions| == |s.versions|
    ensures Solo(s', t, th.(pc := if th.i >= ver.cap then Locking else AddingDeg), ver, Open)
    ensures |run'| == |run| + 1
  {
    SoloTest(s, t, th, ver, rate);
    run', s' := Extend(run, rate, s, t, Test);
  }

  lemma {:induction false} WritesOn(run: seq<State>, rate: real, s: State, t: nat, th: Thread, ver: InsertProtocol.Version)
    returns (run': seq<State>, s': State)
    requires rate >= 1.0 && EndsIn(run, rate, s) && Solo(s, t, th, ver, Open) && th.pc.AddingDeg? && th.v == |s.versions| - 1
    requires th.i < |ver.edge|
    ensures EndsIn(run', rate, s') && run <= run' && |s'.versions| == |s.versions|
    ensures Solo(s', t, th.(pc := Idle),
                 Written(Written(Written(ver, t, th), t, th.(pc := WritingEdge)), t, th.(pc := Counting)), Open)
    ensures |run'| == |run| + 3
  {
    var th2, th3 := th.(pc := WritingEdge), th.(pc := Counting);
    run', s' := WriteOn(run, rate, s, t, th, ver, AddDeg);
    run', s' := WriteOn(run', rate, s', t, th2, Written(ver, t, th), WriteEdge);
    run', s' := WriteOn(run', rate, s', t, th3, Written(Written(ver, t, th), t, th2), CountWritten);
  }

  lemma {:induction false} SoloFinish(run: seq<State>, rate: real, s: State, t: nat, u: Update, was: InsertProtocol.Version, n: nat)
    returns (run': seq<State>, s': State)
    requires rate >= 1.0 && EndsIn(run, rate, s) && Standing(s, t, u, was, n) && was.size < was.cap
    ensures EndsIn(run', rate, s') && run <= run' && Quiescent(s') && s'.versions != []
    ensures Sequential(s'.versions[|s'.versions| - 1]) == Sequential(was).(log := Logged(was.slots) + [u])
    ensures |run'| == |run| + 4
  {
    var th := Thread(Reserved, u, |s.versions| - 1, was.size);
    var th1 := th.(pc := AddingDeg);
    var ver := TakeSlot(was, t, u);
    ThreeWrites(was, t, th1, n);
    run', s' := TestOn(run, rate, s, t, th, ver);
    run', s' := WritesOn(run', rate, s', t, th1, ver);
    LogGrows(was.slots, n, u);
  }

  // ----- Expansion -----

  lemma {:induction false} FullValues(was: InsertProtocol.Version, t: nat, u: Update, n: nat, rate: real)
    requires VersionOk(was) && WrittenTo(was.slots, n) && was.size == |was.snap| + n == was.cap && rate >= 1.0
    ensures var ver := TakeSlot(was, t, u);
            && ver.physical == ver.cap && ver.size == ver.cap + 1 && n == |was.slots|
            && var arr := CompactVersion(ver, rate);
               Fresh(arr) && SameArray(Sequential(arr), Expanded(Sequential(was), rate))
  {
    var ver := TakeSlot(was, t, u);
    DonePrefix(was.slots, n);
    assert ver.slots == was.slots && Full(was);
    FullIsLogged(was);
    FreshOk(CompactVersion(ver, rate));
  }

  lemma {:induction false} LockOn(run: seq<State>, rate: real, s: State, t: nat, th: Thread, ver: InsertProtocol.Version)
    returns (run': seq<State>, s': State)
    requires rate >= 1.0 && EndsIn(run, rate, s) && Solo(s, t, th, ver, Open) && th.pc.Locking? && th.v == |s.versions| - 1
    ensures EndsIn(run', rate, s') && run <= run' && |s'.versions| == |s.versions|
    ensures Solo(s', t, th.(pc := Waiting), ver, HeldBy(t))
  {
    SoloLock(s, t, th, ver, rate);
    run', s' := Extend(run, rate, s, t, Acquire);
    run', s' := Extend(run', rate, s', t, Compare);
  }

  lemma {:induction false} CompactOn(run: seq<State>, rate: real, s: State, t: nat, th: Thread, ver: InsertProtocol.Version)
    returns (run': seq<State>, s': State)
    requires rate >= 1.0 && EndsIn(run, rate, s) && Solo(s, t, th, ver, HeldBy(t)) && th.pc.Waiting?
    requires th.v == |s.versions| - 1 && ver.physical == ver.cap <= ver.size
    ensures EndsIn(run', rate, s') && run <= run' && |s'.versions| == |s.versions|
    ensures Solo(s', t, th.(pc := Built(CompactVersion(ver, rate))), ver, HeldBy(t))
  {
    SoloCompact(s, t, th, ver, rate);
    run', s' := Extend(run, rate, s, t, EndWait);
    run', s' := Extend(run', rate, s', t, Compacts);
  }

  lemma {:induction false} PublishOn(run: seq<State>, rate: real, s: State, t: nat, th: Thread, ver: InsertProtocol.Version)
    returns (run': seq<State>, s': State)
    requires rate >= 1.0 && EndsIn(run, rate, s) && Solo(s, t, th, ver, HeldBy(t)) && th.pc.Built?
    ensures EndsIn(run', rate, s') && run <= run' && |s'.versions| == |s.versions| + 1
    ensures Solo(s', t, th.(pc := Reserving, v := |s.versions|), th.pc.arr, HeldBy(t))
  {
    SoloPublish(s, t, th, ver, rate);
    run', s' := Extend(run, rate, s, t, Publish);
    run', s' := Extend(run', rate, s', t, Reload);
  }

  lemma {:induction false} ReserveOn(run: seq<State>, rate: real, s: State, t: nat, th: Thread, ver: InsertProtocol.Version)
    returns (run': seq<State>, s': State)
    requires rate >= 1.0 && EndsIn(run, rate, s) && Solo(s, t, th, ver, HeldBy(t)) && th.pc.Reserving?
    requires th.v == |s.versions| - 1
    ensures EndsIn(run', rate, s') && run <= run' && |s'.versions| == |s.versions|
    ensures Solo(s', t, th.(pc := Reserved, i := ver.size), TakeSlot(ver, t, th.u), Open)
  {
    SoloReserve(s, t, th, ver, rate);
    run', s' := Extend(run, rate, s, t, ReserveLocked);
    run', s' := Extend(run', rate, s', t, Unlock);
  }

  lemma {:induction false} BuildOn(run: seq<State>, rate: real, s: State, t: nat, th: Thread, ver: InsertProtocol.Version)
    returns (run': seq<State>, s': State)
    requires rate >= 1.0 && EndsIn(run, rate, s) && Solo(s, t, th, ver, Open) && th.pc.Reserved? && th.i >= ver.cap
    requires th.v == |s.versions| - 1 && ver.physical == ver.cap <= ver.size
    ensures EndsIn(run', rate, s') && run <= run' && |s'.versions| == |s.versions|
    ensures Solo(s', t, th.(pc := Built(CompactVersion(ver, rate))), ver, HeldBy(t))
  {
    run', s' := TestOn(run, rate, s, t, th, ver);
    run', s' := LockOn(run', rate, s', t, th.(pc := Locking), ver);
    run', s' := CompactOn(run', rate, s', t, th.(pc := Waiting), ver);
  }

  lemma {:induction false} ReplaceOn(run: seq<State>, rate: real, s: State, t: nat, th: Thread, ver: InsertProtocol.Version)
    returns (run': seq<State>, s': State)
    requires rate >= 1.0 && EndsIn(run, rate, s) && Solo(s, t, th, ver, HeldBy(t)) && th.pc.Built?
    ensures EndsIn(run', rate, s') && run <= run' && |s'.versions| == |s.versions| + 1
    ensures Solo(s', t, Thread(Reserved, th.u, |s.versions|, th.pc.arr.size), TakeSlot(th.pc.arr, t, th.u), Open)
  {
    run', s' := PublishOn(run, rate, s, t, th, ver);
    run', s' := ReserveOn(run', rate, s', t, th.(pc := Reserving, v := |s.versions|), th.pc.arr);
  }

  lemma {:induction false} SoloExpand(run: seq<State>, rate: real, s: State, t: nat, u: Update, was: InsertProtocol.Version, n: nat)
    returns (run': seq<State>, s': State, arr: InsertProtocol.Version)
    requires rate >= 1.0 && EndsIn(run, rate, s) && Standing(s, t, u, was, n) && was.size == was.cap
    ensures EndsIn(run', rate, s') && run <= run' && Standing(s', t, u, arr, 0)
    ensures Fresh(arr) && SameArray(Sequential(arr), Expanded(Sequential(was), rate))
  {
    var th := Thread(Reserved, u, |s.versions| - 1, was.size);
    var ver := TakeSlot(was, t, u);
    FullValues(was, t, u, n, rate);
    arr := CompactVersion(ver, rate);
    FreshOk(arr);
    run', s' := BuildOn(run, rate, s, t, th, ver);
    run', s' := ReplaceOn(run', rate, s', t, th.(pc := Built(arr)), ver);
  }

  lemma {:induction false} UsedSlots(was: InsertProtocol.Version, n: nat)
    requires WrittenTo(was.slots, n) && was.size == |was.snap| + n
    ensures Sequential(was).Used() == was.size && |Logged(was.slots)| == n
  {
    DonePrefix(was.slots, n);
  }

  lemma {:induction false} EndNow(a: ArrayState, c: ArrayState, u: Update, rate: real)
    requires rate >= 1.0 && a.Used() < a.cap && c == a.(log := a.log + [u])
    ensures SameArray(c, Inserted(a, u, rate))
  {
    InsertedAppends(a, u, rate);
  }

  lemma {:induction false} SameEnd(a: ArrayState, b: ArrayState, c: ArrayState, u: Update, rate: real)
    requires rate >= 1.0 && a.Used() == a.cap && b.Used() <= b.cap && SameArray(b, Expanded(a, rate))
    requires SameArray(c, Inserted(b, u, rate))
    ensures SameArray(c, Inserted(a, u, rate))
  {
    InsertedExpands(a, u, rate);
    InsertedSame(b, Expanded(a, rate), u, rate);
  }

  /** From the first reservation to the end, through as many expansions as it takes. */
  lemma {:induction false} SoloSettles(run: seq<State>, rate: real, s: State, t: nat, u: Update, was: InsertProtocol.Version, n: nat)
    returns (run': seq<State>, s': State)
    requires rate >= 1.0 && EndsIn(run, rate, s) && Standing(s, t, u, was, n) && was.size <= was.cap
    ensures EndsIn(run', rate, s') && run <= run' && Quiescent(s') && s'.versions != []
    ensures Sequential(was).Used() <= was.cap
    ensures SameArray(Sequential(s'.versions[|s'.versions| - 1]), Inserted(Sequential(was), u, rate))
    ensures was.size < was.cap ==> |run'| == |run| + 4
    decreases if was.size < was.cap then 0 else if n == 0 then 1 else 2, 1
  {
    UsedSlots(was, n);
    if was.size < was.cap {
      run', s' := SoloFinish(run, rate, s, t, u, was, n);
      EndNow(Sequential(was), Sequential(s'.versions[|s'.versions| - 1]), u, rate);
    } else {
      run', s' := SoloAgain(run, rate, s, t, u, was, n);
    }
  }

  /** Another expansion first. */
  lemma {:induction false} SoloAgain(run: seq<State>, rate: real, s: State, t: nat, u: Update, was: InsertProtocol.Version, n: nat)
    returns (run': seq<State>, s': State)
    requires rate >= 1.0 && EndsIn(run, rate, s) && Standing(s, t, u, was, n) && was.size == was.cap
    requires Sequential(was).Used() == was.size && |Logged(was.slots)| == n
    ensures EndsIn(run', rate, s') && run <= run' && Quiescent(s') && s'.versions != []
    ensures SameArray(Sequential(s'.versions[|s'.versions| - 1]), Inserted(Sequential(was), u, rate))
    decreases if n == 0 then 1 else 2, 0
  {
    var arr;
    run', s', arr := SoloExpand(run, rate, s, t, u, was, n);
    RoomAfterEmpty(was, n, arr, rate);
    run', s' := SoloSettles(run', rate, s', t, u, arr, 0);
    SameEnd(Sequential(was), Sequential(arr), Sequential(s'.versions[|s'.versions| - 1]), u, rate);
  }

  /** Expanding an array with an empty log leaves a free slot. */
  lemma {:induction false} RoomAfterEmpty(was: InsertProtocol.Version, n: nat, arr: InsertProtocol.Version, rate: real)
    requires rate >= 1.0 && |Logged(was.slots)| == n && Fresh(arr) && SameArray(Sequential(arr), Expanded(Sequential(was), rate))
    ensures arr.size <= arr.cap && (n == 0 ==> arr.size < arr.cap) && Sequential(arr).Used() <= arr.cap
  {
    FreshOk(arr);
  }

  lemma {:induction false} QuietStands(s: State) returns (n: nat)
    requires Inv(s) && OverflowHandled(s) && Quiescent(s)
    ensures s.lock == Open
    ensures var ver := s.versions[|s.versions| - 1];
            VersionOk(ver) && WrittenTo(ver.slots, n) && ver.size == |ver.snap| + n <= ver.cap
  {
    var k := |s.versions| - 1;
    var ver := s.versions[k];
    assert VersionOk(ver);
    QuietWhenIdle(s, k);
    forall t ensures !InCharge(s, t) {}
    n := ver.size - |ver.snap|;
  }

  lemma {:induction false} StartOn(run: seq<State>, rate: real, s: State, t: nat, th: Thread, was: InsertProtocol.Version, u: Update)
    returns (run': seq<State>, s': State)
    requires rate >= 1.0 && EndsIn(run, rate, s) && Solo(s, t, th, was, Open) && th.pc.Idle?
    ensures EndsIn(run', rate, s') && run <= run' && |s'.versions| == |s.versions|
    ensures Solo(s', t, Thread(Reserved, u, |s.versions| - 1, was.size), TakeSlot(was, t, u), Open)
    ensures |run'| == |run| + 2
  {
    SoloStart(s, t, th, was, u, rate);
    run', s' := Extend(run, rate, s, t, Load(u));
    run', s' := Extend(run', rate, s', t, Reserve);
  }

  /** From every reachable state at rest: a thread that runs alone can go through its insert to a state at rest, and the
      current array is then the one the sequential insert makes. With a free slot it takes six steps: no lock, no retry. */
  lemma {:induction false} SoloIsSequential(run: seq<State>, rate: real, t: nat, u: Update) returns (run': seq<State>)
    requires rate >= 1.0 && IsRun(run, rate) && Quiescent(run[|run| - 1]) && t in run[|run| - 1].threads
    ensures IsRun(run', rate) && run <= run' && Quiescent(run'[|run'| - 1])
    ensures run[|run| - 1].versions != [] && run'[|run'| - 1].versions != []
    ensures var was := run[|run| - 1].versions[|run[|run| - 1].versions| - 1];
            var ver := run'[|run'| - 1].versions[|run'[|run'| - 1].versions| - 1];
            && Sequential(was).Used() <= was.cap
            && SameArray(Sequential(ver), Inserted(Sequential(was), u, rate))
            && (was.size < was.cap ==> |run'| == |run| + 6)
  {
    var s := run[|run| - 1];
    RunInv(run, rate, |run| - 1);
    RunHandled(run, rate, |run| - 1);
    var s';
    run', s' := SoloFrom(run, rate, s, t, u);
  }

  lemma {:induction false} SoloFrom(run: seq<State>, rate: real, s: State, t: nat, u: Update) returns (run': seq<State>, s': State)
    requires rate >= 1.0 && EndsIn(run, rate, s) && Inv(s) && OverflowHandled(s) && Quiescent(s) && t in s.threads
    ensures EndsIn(run', rate, s') && run <= run' && Quiescent(s') && s'.versions != []
    ensures var was := s.versions[|s.versions| - 1];
            && Sequential(was).Used() <= was.cap
            && SameArray(Sequential(s'.versions[|s'.versions| - 1]), Inserted(Sequential(was), u, rate))
            && (was.size < was.cap ==> |run'| == |run| + 6)
  {
    var n := QuietStands(s);
    var was := s.versions[|s.versions| - 1];
    run', s' := StartOn(run, rate, s, t, s.threads[t], was, u);
    run', s' := SoloSettles(run', rate, s', t, u, was, n);
  }
}
