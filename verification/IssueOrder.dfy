/** What a caller of `RadixGraph::Insert` can rely on without seeing the slots.

    Threads race for slots, so the slot order of different destinations is anybody's guess. But if no two updates of one
    destination are ever in flight together, the slots keep each destination's updates in the order in which they were
    begun, across any number of expansions, and that order alone decides what the vertex ends up with. */
module IssueOrder {
  import opened EdgeRecords
  import opened Compaction
  import opened EdgeArrays
  import opened VertexLog
  import opened InsertProtocol

  /** The updates of one destination, in order. */
  function On(us: seq<Update>, d: int): seq<Update> {
    if us == [] then []
    else On(us[..|us| - 1], d) + (if us[|us| - 1].des == d then [us[|us| - 1]] else [])
  }

  lemma {:induction false} OnOne(us: seq<Update>, u: Update, d: int)
    ensures On(us + [u], d) == if u.des == d then On(us, d) + [u] else On(us, d)
  {
    assert (us + [u])[..|us|] == us;
  }

  // ----- Each destination's updates decide its edge -----

  ghost predicate SameAt(m: map<int, real>, m': map<int, real>, d: int) {
    (d in m <==> d in m') && (d in m ==> m[d] == m'[d])
  }

  ghost function Result(us: seq<Update>): map<int, real> {
    Replay(Records(us))
  }

  lemma {:induction false} ResultAppend(us: seq<Update>, u: Update)
    ensures Result(us + [u]) == Apply(Result(us), u.Record())
  {
    ReplayAppend(map[], us, u);
  }

  lemma {:induction false} ResultOn(us: seq<Update>, d: int)
    ensures SameAt(Result(us), Result(On(us, d)), d)
  {
    if us != [] {
      var init, u := us[..|us| - 1], us[|us| - 1];
      ResultOn(init, d);
      assert us == init + [u];
      OnOne(init, u, d);
      ResultAppend(init, u);
      ResultAppend(On(init, d), u);
    }
  }

  ghost predicate WellOn(us: seq<Update>, d: int) {
    WellFormed(map[], On(us, d))
  }

  lemma {:induction false} WellFormedOn(us: seq<Update>)
    ensures WellFormed(map[], us) <==> forall d {:trigger WellOn(us, d)} :: WellOn(us, d)
  {
    if us == [] {
      assert WellFormed(map[], On(us, 0));
      forall d ensures WellOn(us, d) {}
    } else {
      var init, u := us[..|us| - 1], us[|us| - 1];
      assert us == init + [u];
      WellFormedOn(init);
      WellFormedAppend(map[], init, u);
      WellFormedAppend(map[], On(init, u.des), u);
      ResultOn(init, u.des);
      assert WellOn(us, u.des) <==> WellOn(init, u.des) && Legal(Result(init), u);
      forall d ensures d != u.des ==> (WellOn(us, d) <==> WellOn(init, d)) {
        OnOne(init, u, d);
      }
      if WellFormed(map[], us) {
        forall d ensures WellOn(us, d) {
          assert WellOn(init, d);
        }
      } else if forall d {:trigger WellOn(us, d)} :: WellOn(us, d) {
        forall d ensures WellOn(init, d) {
          assert WellOn(us, d) && WellOn(us, u.des);
        }
      }
    }
  }

  ghost predicate SameOn(a: seq<Update>, b: seq<Update>, d: int) {
    On(a, d) == On(b, d)
  }

  /** Two histories with the same order on every destination are equally well formed and leave the same map. */
  lemma {:induction false} SameOrders(a: seq<Update>, b: seq<Update>)
    requires forall d {:trigger SameOn(a, b, d)} :: SameOn(a, b, d)
    ensures WellFormed(map[], a) <==> WellFormed(map[], b)
    ensures Result(a) == Result(b)
  {
    WellFormedOn(a);
    WellFormedOn(b);
    forall d ensures WellOn(a, d) <==> WellOn(b, d) {
      assert SameOn(a, b, d);
    }
    var m, m' := Result(a), Result(b);
    forall d ensures (d in m <==> d in m') && (d in m ==> m[d] == m'[d]) {
      assert SameOn(a, b, d);
      ResultOn(a, d);
      ResultOn(b, d);
    }
    assert m == m';
  }

  // ----- The updates that have a slot -----

  /** The updates of the reserved slots of a version, written or not. */
  function Taken(slots: seq<Slot>): seq<Update> {
    if slots == [] then []
    else Taken(slots[..|slots| - 1]) + (if slots[|slots| - 1].Free? then [] else [slots[|slots| - 1].u])
  }

  function AllTaken(versions: seq<Version>): seq<Update> {
    if versions == [] then []
    else AllTaken(versions[..|versions| - 1]) + Taken(versions[|versions| - 1].slots)
  }

  lemma {:induction false} TakenKept(slots: seq<Slot>, j: nat, slot: Slot)
    requires j < |slots| && !slots[j].Free? && !slot.Free? && slot.u == slots[j].u
    ensures Taken(slots[j := slot]) == Taken(slots)
  {
    LoggedLast(slots, j, slot);
    if j < |slots| - 1 {
      TakenKept(slots[..|slots| - 1], j, slot);
    }
  }

  lemma {:induction false} TakenMore(slots: seq<Slot>, j: nat, slot: Slot)
    requires j < |slots| && !slot.Free? && forall n | j <= n < |slots| :: slots[n].Free?
    ensures Taken(slots[j := slot]) == Taken(slots) + [slot.u]
  {
    LoggedLast(slots, j, slot);
    if j < |slots| - 1 {
      TakenMore(slots[..|slots| - 1], j, slot);
    }
  }

  lemma {:induction false} TakenNone(slots: seq<Slot>)
    requires forall j | 0 <= j < |slots| :: slots[j].Free?
    ensures Taken(slots) == []
  {
    if slots != [] {
      TakenNone(slots[..|slots| - 1]);
    }
  }

  lemma {:induction false} TakenIsLogged(slots: seq<Slot>)
    requires forall j | 0 <= j < |slots| :: !slots[j].Pending?
    ensures Taken(slots) == Logged(slots)
  {
    if slots != [] {
      TakenIsLogged(slots[..|slots| - 1]);
    }
  }

  lemma {:induction false} AllTakenKept(versions: seq<Version>, v: nat, ver: Version)
    requires v < |versions| && Taken(ver.slots) == Taken(versions[v].slots)
    ensures AllTaken(versions[v := ver]) == AllTaken(versions)
  {
    var n, after := |versions| - 1, versions[v := ver];
    if v == n {
      assert after[..n] == versions[..n];
    } else {
      assert after[..n] == versions[..n][v := ver];
      AllTakenKept(versions[..n], v, ver);
    }
  }

  lemma {:induction false} AllTakenIsHistory(versions: seq<Version>)
    requires forall k | 0 <= k < |versions| :: Taken(versions[k].slots) == Logged(versions[k].slots)
    ensures AllTaken(versions) == History(versions)
  {
    if versions != [] {
      AllTakenIsHistory(versions[..|versions| - 1]);
    }
  }

  // ----- What a step does to them -----

  /** An insert in flight that has no slot below the capacity yet. */
  predicate Unplaced(versions: seq<Version>, th: Thread) {
    !th.pc.Idle? && !Owes(versions, th, th.v)
  }

  ghost predicate Loose(s: State, t: nat, d: int) {
    t in s.threads && Unplaced(s.versions, s.threads[t]) && s.threads[t].u.des == d
  }

  /** A destination's begun updates are those with a slot, in slot order, then the one that has none yet. */
  ghost predicate OrderOk(s: State, d: int) {
    && (forall t | Loose(s, t, d) :: On(s.issued, d) == On(AllTaken(s.versions), d) + [s.threads[t].u])
    && ((forall t :: !Loose(s, t, d)) ==> On(s.issued, d) == On(AllTaken(s.versions), d))
  }

  /** No two updates of one destination are in flight together. */
  ghost predicate Serial(s: State) {
    forall t, q | t in s.threads && q in s.threads && t != q && !s.threads[t].pc.Idle? && !s.threads[q].pc.Idle? ::
      s.threads[t].u.des != s.threads[q].u.des
  }

  /** One thread moves, no capacity changes. */
  ghost predicate Moves(s: State, s': State, t: nat) {
    && t in s.threads && t in s'.threads && s'.threads == s.threads[t := s'.threads[t]]
    && |s'.versions| >= |s.versions| && forall k | 0 <= k < |s.versions| :: s'.versions[k].cap == s.versions[k].cap
  }

  lemma {:induction false} WriteMoves(s: State, t: nat, th: Thread)
    requires t in s.threads && th == s.threads[t] && Writes(th) && th.v < |s.versions|
    requires th.pc.WritingEdge? ==> th.i < |s.versions[th.v].edge|
    ensures Moves(s, PerformWrite(s, t, th), t)
  {
  }

  lemma {:induction false} StepMoves(s: State, t: nat, a: Action, rate: real)
    requires Enabled(s, t, a) && rate >= 1.0
    ensures Moves(s, Perform(s, t, a, rate), t)
  {
    if Writes(s.threads[t]) {
      WriteMoves(s, t, s.threads[t]);
    }
  }

  lemma {:induction false} OthersLoose(s: State, s': State, t: nat, q: nat, d: int)
    requires ThreadsOk(s.versions, s.threads) && Moves(s, s', t) && q != t
    ensures Loose(s', q, d) <==> Loose(s, q, d)
  {
    if q in s.threads {
      assert ThreadOk(s.versions, q, s.threads[q]);
    }
  }

  /** The begun and the placed updates stay, and the thread is as loose as before. */
  lemma {:induction false} QuietOrder(s: State, s': State, t: nat, d: int)
    requires ThreadsOk(s.versions, s.threads) && Moves(s, s', t) && OrderOk(s, d)
    requires s'.issued == s.issued && AllTaken(s'.versions) == AllTaken(s.versions)
    requires s'.threads[t].u == s.threads[t].u && Unplaced(s'.versions, s'.threads[t]) == Unplaced(s.versions, s.threads[t])
    ensures OrderOk(s', d)
  {
    forall q ensures Loose(s', q, d) <==> Loose(s, q, d) {
      if q != t {
        OthersLoose(s, s', t, q, d);
      }
    }
  }

  /** A thread begins an update: nobody else has one of that destination in flight. */
  lemma {:induction false} BeginOrder(s: State, s': State, t: nat, d: int)
    requires ThreadsOk(s.versions, s.threads) && Moves(s, s', t) && OrderOk(s, d) && Serial(s')
    requires s.threads[t].pc.Idle? && s'.threads[t].pc.Loaded?
    requires s'.issued == s.issued + [s'.threads[t].u] && s'.versions == s.versions
    ensures OrderOk(s', d)
  {
    OnOne(s.issued, s'.threads[t].u, d);
    forall q | q != t ensures Loose(s', q, d) <==> Loose(s, q, d) {
      OthersLoose(s, s', t, q, d);
    }
    assert !Loose(s, t, d);
    if s'.threads[t].u.des == d {
      assert Loose(s', t, d);
      forall q ensures Loose(s', q, d) ==> q == t {}
    }
  }

  /** A thread gets a slot: its update moves from the front of the begun ones to the end of the placed ones. */
  lemma {:induction false} PlaceOrder(s: State, s': State, t: nat, d: int)
    requires ThreadsOk(s.versions, s.threads) && Moves(s, s', t) && OrderOk(s, d) && Serial(s)
    requires s'.issued == s.issued && AllTaken(s'.versions) == AllTaken(s.versions) + [s.threads[t].u]
    requires Unplaced(s.versions, s.threads[t]) && !Unplaced(s'.versions, s'.threads[t])
    ensures OrderOk(s', d)
  {
    OnOne(AllTaken(s.versions), s.threads[t].u, d);
    forall q | q != t ensures Loose(s', q, d) <==> Loose(s, q, d) {
      OthersLoose(s, s', t, q, d);
    }
    assert !Loose(s', t, d);
    if s.threads[t].u.des == d {
      assert Loose(s, t, d);
      forall q ensures Loose(s, q, d) ==> q == t {}
    } else {
      assert !Loose(s, t, d);
    }
  }

  lemma {:induction false} WriteTakes(was: Version, t: nat, th: Thread)
    requires Writes(th) && VersionOk(was) && |was.snap| <= th.i < was.cap
    requires was.slots[th.i - |was.snap|] == Pending(t, th.u, th.SlotPhase())
    ensures Taken(Written(was, t, th).slots) == Taken(was.slots)
  {
    TakenKept(was.slots, th.i - |was.snap|, Written(was, t, th).slots[th.i - |was.snap|]);
  }

  lemma {:induction false} WriteOrder(s: State, t: nat, th: Thread, d: int)
    requires Inv(s) && t in s.threads && th == s.threads[t] && Writes(th) && th.v < |s.versions| && OrderOk(s, d)
    requires th.pc.WritingEdge? ==> th.i < |s.versions[th.v].edge|
    ensures OrderOk(PerformWrite(s, t, th), d)
  {
    var was := s.versions[th.v];
    WriterSlot(s, t, th, was);
    WriteTakes(was, t, th);
    AllTakenKept(s.versions, th.v, Written(was, t, th));
    WriteMoves(s, t, th);
    QuietOrder(s, PerformWrite(s, t, th), t, d);
  }

  lemma {:induction false} TakeSlotTakes(was: Version, t: nat, u: Update)
    requires VersionOk(was)
    ensures Taken(TakeSlot(was, t, u).slots) == if was.size < was.cap then Taken(was.slots) + [u] else Taken(was.slots)
  {
    if was.size < was.cap {
      TakenMore(was.slots, was.size - |was.snap|, Pending(t, u, JustReserved));
    }
  }

  lemma {:induction false} AllTakenMore(versions: seq<Version>, now: Version, u: Update)
    requires versions != [] && Taken(now.slots) == Taken(versions[|versions| - 1].slots) + [u]
    ensures AllTaken(versions[|versions| - 1 := now]) == AllTaken(versions) + [u]
  {
    var n := |versions| - 1;
    assert versions[n := now][..n] == versions[..n];
  }

  /** A slot below the capacity is free in the current version only. */
  lemma {:induction false} RoomIsCurrent(versions: seq<Version>, v: nat)
    requires VersionsOk(versions) && v < |versions| && versions[v].size < versions[v].cap
    ensures v == |versions| - 1
  {
    assert v < |versions| - 1 ==> Full(versions[v]);
  }

  lemma {:induction false} ReserveTakes(versions: seq<Version>, t: nat, th: Thread, was: Version)
    requires VersionsOk(versions) && th.v < |versions| && was == versions[th.v]
    ensures AllTaken(versions[th.v := TakeSlot(was, t, th.u)])
         == if was.size < was.cap then AllTaken(versions) + [th.u] else AllTaken(versions)
  {
    var now := TakeSlot(was, t, th.u);
    assert VersionOk(versions[th.v]);
    TakeSlotTakes(was, t, th.u);
    if was.size < was.cap {
      RoomIsCurrent(versions, th.v);
      AllTakenMore(versions, now, th.u);
    } else {
      AllTakenKept(versions, th.v, now);
    }
  }

  lemma {:induction false} ReserveOrder(s: State, t: nat, a: Action, rate: real, d: int)
    requires Inv(s) && Enabled(s, t, a) && rate >= 1.0 && (a.Reserve? || a.ReserveLocked?) && OrderOk(s, d) && Serial(s)
    ensures OrderOk(Perform(s, t, a, rate), d)
  {
    var th := s.threads[t];
    var was := s.versions[th.v];
    StepMoves(s, t, a, rate);
    ReserveTakes(s.versions, t, th, was);
    if was.size < was.cap {
      PlaceOrder(s, Perform(s, t, a, rate), t, d);
    } else {
      QuietOrder(s, Perform(s, t, a, rate), t, d);
    }
  }

  lemma {:induction false} PublishOrder(s: State, t: nat, rate: real, d: int)
    requires Inv(s) && Enabled(s, t, Publish) && rate >= 1.0 && OrderOk(s, d)
    ensures OrderOk(Perform(s, t, Publish, rate), d)
  {
    var arr := s.threads[t].pc.arr;
    assert ThreadOk(s.versions, t, s.threads[t]);
    FreshOk(arr);
    TakenNone(arr.slots);
    assert (s.versions + [arr])[..|s.versions|] == s.versions;
    StepMoves(s, t, Publish, rate);
    QuietOrder(s, Perform(s, t, Publish, rate), t, d);
  }

  predicate SlotNeutral(a: Action) {
    a.Test? || a.Acquire? || a.Compare? || a.EndWait? || a.Compacts? || a.Reload? || a.Unlock?
  }

  /** These actions touch neither the begun updates nor the versions, and give or take no slot. */
  lemma {:induction false} NeutralShape(s: State, t: nat, th: Thread, a: Action, rate: real)
    requires Enabled(s, t, a) && rate >= 1.0 && SlotNeutral(a) && th == s.threads[t]
    ensures var s' := Perform(s, t, a, rate);
            && s'.versions == s.versions && s'.issued == s.issued && t in s'.threads
            && s'.threads[t].u == th.u && (Unplaced(s.versions, s'.threads[t]) <==> Unplaced(s.versions, th))
  {
  }

  lemma {:induction false} OtherOrder(s: State, t: nat, a: Action, rate: real, d: int)
    requires Inv(s) && Enabled(s, t, a) && rate >= 1.0 && OrderOk(s, d)
    requires SlotNeutral(a)
    ensures OrderOk(Perform(s, t, a, rate), d)
  {
    StepMoves(s, t, a, rate);
    NeutralShape(s, t, s.threads[t], a, rate);
    QuietOrder(s, Perform(s, t, a, rate), t, d);
  }

  lemma {:induction false} StepOrder(s: State, t: nat, a: Action, rate: real, d: int)
    requires Inv(s) && Enabled(s, t, a) && rate >= 1.0 && OrderOk(s, d) && Serial(s) && Serial(Perform(s, t, a, rate))
    ensures OrderOk(Perform(s, t, a, rate), d)
  {
    match a
    case Load(_) =>
      StepMoves(s, t, a, rate);
      BeginOrder(s, Perform(s, t, a, rate), t, d);
    case Reserve => ReserveOrder(s, t, a, rate, d);
    case ReserveLocked => ReserveOrder(s, t, a, rate, d);
    case Publish => PublishOrder(s, t, rate, d);
    case AddDeg => WriteOrder(s, t, s.threads[t], d);
    case WriteEdge => WriteOrder(s, t, s.threads[t], d);
    case CountWritten => WriteOrder(s, t, s.threads[t], d);
    case _ => OtherOrder(s, t, a, rate, d);
  }

  lemma {:induction false} NextOrder(s: State, s': State, rate: real, d: int)
    requires rate >= 1.0 && Inv(s) && Next(s, s', rate) && OrderOk(s, d) && Serial(s) && Serial(s')
    ensures OrderOk(s', d)
  {
    var t: nat, a: Action :| Enabled(s, t, a) && s' == Perform(s, t, a, rate);
    StepOrder(s, t, a, rate, d);
  }

  lemma {:induction false} FirstOrder(s: State, d: int)
    requires Initial(s)
    ensures OrderOk(s, d)
  {
    FirstVersion(s.versions);
    FreshOk(s.versions[0]);
    TakenNone(s.versions[0].slots);
    assert s.versions[..0] == [];
    assert AllTaken(s.versions) == [];
  }

  ghost predicate SerialRun(run: seq<State>, k: nat)
    requires k < |run|
  {
    forall i {:trigger Serial(run[i])} | 0 <= i <= k :: Serial(run[i])
  }

  lemma {:induction false} RunOrder(run: seq<State>, rate: real, k: nat, d: int)
    requires rate >= 1.0 && IsRun(run, rate) && k < |run| && SerialRun(run, k)
    ensures OrderOk(run[k], d)
  {
    if k == 0 {
      FirstOrder(run[0], d);
    } else {
      RunOrder(run, rate, k - 1, d);
      RunStep(run, rate, k);
      assert Serial(run[k - 1]) && Serial(run[k]);
      NextOrder(run[k - 1], run[k], rate, d);
    }
  }

  lemma {:induction false} QuietTaken(s: State)
    requires Inv(s) && Quiescent(s)
    ensures AllTaken(s.versions) == History(s.versions)
  {
    forall k | 0 <= k < |s.versions| ensures Taken(s.versions[k].slots) == Logged(s.versions[k].slots) {
      QuietWhenIdle(s, k);
      TakenIsLogged(s.versions[k].slots);
    }
    AllTakenIsHistory(s.versions);
  }

  /** In every run of any number of threads in which updates of one destination do not overlap, whenever no insert is in
      flight: the slots hold each destination's updates in the order in which they were begun, and if the updates were
      well formed in that order the current array replays to their latest-wins map. */
  lemma {:induction false} IssueOrderDecides(run: seq<State>, rate: real, k: nat)
    requires rate >= 1.0 && IsRun(run, rate) && k < |run| && Quiescent(run[k]) && SerialRun(run, k)
    ensures forall d {:trigger SameOn(run[k].issued, History(run[k].versions), d)} ::
              SameOn(run[k].issued, History(run[k].versions), d)
    ensures WellFormed(map[], run[k].issued) <==> WellFormed(map[], History(run[k].versions))
    ensures run[k].versions != []
    ensures var ver := run[k].versions[|run[k].versions| - 1];
            && ver.physical <= |ver.edge|
            && (WellFormed(map[], run[k].issued) ==> Replay(ver.edge[..ver.physical]) == Result(run[k].issued))
  {
    var s := run[k];
    RunInv(run, rate, k);
    QuietTaken(s);
    forall d ensures SameOn(s.issued, History(s.versions), d) {
      RunOrder(run, rate, k, d);
      assert forall t :: !Loose(s, t, d);
    }
    SameOrders(s.issued, History(s.versions));
    NoRecordLost(run, rate, k);
  }
}
