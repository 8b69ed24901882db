/** One vertex under a sequential stream of updates: appending, expanding when the array is full, and what that costs.

    `ArrayState` is the abstract state of the current edge array; `Inserted`, `Expanded` and `Run` say how an update, a
    compaction and a whole stream change it. The class `Vertex` at the end does the same work on real arrays. */
module VertexLog {
  import opened EdgeRecords
  import opened Compaction
  import opened EdgeArrays
  import opened Bitmaps

  /** The current array: its capacity, its snapshot, the updates logged since, and (for the cost bound only) how many
      slots all compactions so far have scanned. */
  datatype ArrayState = ArrayState(cap: nat, snap: seq<Edge>, log: seq<Update>, scanned: nat)
  {
    function Used(): nat {
      |snap| + |log|
    }

    function Deg(): int {
      |snap| + SumDelta(log)
    }

    function Live(): map<int, real> {
      ReplayFrom(Replay(snap), Records(log))
    }

    ghost predicate Ok() {
      Used() <= cap && IsSnapshot(snap) && WellFormed(Replay(snap), log)
    }
  }

  const INITIAL_CAPACITY: nat := 8

  const EMPTY := ArrayState(INITIAL_CAPACITY, [], [], 0)

  /** `deg * expand_rate + overshoot + 8`, truncated; a negative degree counts as zero. */
  function Allocation(deg: int, rate: real, overshoot: nat): (a: nat)
    requires rate >= 1.0
    ensures a >= deg + overshoot + 8 && a >= overshoot + 8
  {
    var d := if deg > 0 then deg else 0;
    assert d as real * rate >= d as real;
    (d as real * rate + overshoot as real + 8.0).Floor
  }

  lemma {:induction false} AllocationExact(deg: int, rate: real, overshoot: nat)
    requires rate >= 1.0
    ensures var a := Allocation(deg, rate, overshoot) as real;
            a <= (if deg > 0 then deg as real * rate else 0.0) + overshoot as real + 8.0 < a + 1.0
  {
  }

  lemma {:induction false} AllocationScales(deg: nat, rate: real, overshoot: nat)
    requires rate >= 1.0
    ensures Scales(Allocation(deg, rate, overshoot), deg, rate)
  {
  }

  /** The capacity leaves room for `rate` times the snapshot. */
  ghost predicate Scales(cap: nat, snap: nat, rate: real) {
    cap as real >= snap as real * rate
  }

  lemma {:induction false} ScalesUp(cap: nat, cap': nat, snap: nat, rate: real)
    requires Scales(cap, snap, rate) && cap <= cap'
    ensures Scales(cap', snap, rate)
  {
  }

  /** Compaction into a fresh array. One thread finds `size - cap + 1 == 2` when it overflows. */
  function Expanded(s: ArrayState, rate: real): (s': ArrayState)
    requires rate >= 1.0
    ensures s'.Used() <= s'.cap && s'.log == []
    ensures s.log == [] ==> s'.Used() < s'.cap
  {
    var edges := s.snap + Records(s.log);
    var snap := Compact(edges, |s.snap|, s.Deg());
    ArrayState(Grown(Allocation(s.Deg(), rate, 2), |snap|), snap, [], s.scanned + |edges|)
  }

  /** One update: expand until a slot is free, then append. */
  function Inserted(s: ArrayState, u: Update, rate: real): ArrayState
    requires rate >= 1.0 && s.Used() <= s.cap
    decreases if s.Used() < s.cap then 0 else if s.log == [] then 1 else 2
  {
    if s.Used() < s.cap then s.(log := s.log + [u])
    else Inserted(Expanded(s, rate), u, rate)
  }

  // ----- Timestamps -----

  ghost predicate Rising(stamps: seq<int>) {
    forall i, j | 0 <= i < j < |stamps| :: stamps[i] < stamps[j]
  }

  /** The updates stamped at most `t`. */
  function StampedUpTo(log: seq<Update>, stamps: seq<int>, t: int): seq<Update>
    requires |log| == |stamps|
  {
    if log == [] then []
    else StampedUpTo(log[..|log| - 1], stamps[..|log| - 1], t) + (if stamps[|log| - 1] <= t then [log[|log| - 1]] else [])
  }

  lemma {:induction false} StampedAll(log: seq<Update>, stamps: seq<int>, t: int)
    requires |log| == |stamps| && forall i | 0 <= i < |stamps| :: stamps[i] <= t
    ensures StampedUpTo(log, stamps, t) == log
  {
    if log != [] {
      StampedAll(log[..|log| - 1], stamps[..|log| - 1], t);
    }
  }

  /** With rising stamps the visible records are exactly those stamped at most `t`. */
  lemma {:induction false} VisibleIsStamped(log: seq<Update>, stamps: seq<int>, t: int)
    requires |log| == |stamps| && Rising(stamps)
    ensures StampedUpTo(log, stamps, t) == log[..VisibleCount(stamps, t)]
  {
    if log != [] {
      var n := |log| - 1;
      if stamps[n] <= t {
        StampedAll(log, stamps, t);
      } else {
        VisibleIsStamped(log[..n], stamps[..n], t);
        assert log[..n][..VisibleCount(stamps[..n], t)] == log[..VisibleCount(stamps[..n], t)];
      }
    }
  }

  lemma {:induction false} SnapshotFirst(snap: seq<Edge>, log: seq<Update>, edges: seq<Edge>)
    requires edges == snap + Records(log)
    ensures edges[..|snap|] == snap && |edges| == |snap| + |log|
  {
  }

  lemma {:induction false} VisibleLog(snap: seq<Edge>, log: seq<Update>, edges: seq<Edge>, n: nat)
    requires edges == snap + Records(log) && n <= |log|
    ensures Replay(edges[..|snap| + n]) == ReplayFrom(Replay(snap), Records(log[..n]))
  {
    assert edges[..|snap| + n] == snap + Records(log[..n]);
    ReplayConcat(map[], snap, Records(log[..n]));
  }

  /** The stamps of the log records, the stamp of the snapshot, and the global counter. */
  datatype Times = Times(stamps: seq<int>, snapTs: int, clock: int)

  /** Writing a record draws a stamp if the array has a timestamp buffer. */
  function Stamped(tm: Times, buffer: bool): Times {
    if buffer then Times(tm.stamps + [tm.clock], tm.snapTs, tm.clock + 1) else tm
  }

  /** Compaction starts over and stamps the snapshot. */
  function Restamped(tm: Times): Times {
    Times([], tm.clock, tm.clock + 1)
  }

  /** The stamps after one update: `buffer` says whether the current array has a timestamp buffer, `mixed` whether new ones
      get one. */
  function InsertedTimes(s: ArrayState, tm: Times, rate: real, buffer: bool, mixed: bool): Times
    requires rate >= 1.0 && s.Used() <= s.cap
    decreases if s.Used() < s.cap then 0 else if s.log == [] then 1 else 2
  {
    if s.Used() < s.cap then Stamped(tm, buffer) else InsertedTimes(Expanded(s, rate), Restamped(tm), rate, mixed, mixed)
  }

  lemma {:induction false} TimesExpand(s: ArrayState, tm: Times, rate: real, buffer: bool, mixed: bool)
    requires rate >= 1.0 && s.Used() == s.cap
    ensures InsertedTimes(s, tm, rate, buffer, mixed) == InsertedTimes(Expanded(s, rate), Restamped(tm), rate, mixed, mixed)
  {
  }

  lemma {:induction false} TimesAppend(s: ArrayState, tm: Times, rate: real, buffer: bool, mixed: bool)
    requires rate >= 1.0 && s.Used() < s.cap
    ensures InsertedTimes(s, tm, rate, buffer, mixed) == Stamped(tm, buffer)
  {
  }

  /** The stamps ascend from the snapshot's on and are below the counter. */
  ghost predicate Orderly(tm: Times) {
    && tm.snapTs <= tm.clock
    && (forall i | 0 <= i < |tm.stamps| :: tm.snapTs <= tm.stamps[i] < tm.clock)
    && Rising(tm.stamps)
  }

  /** From here on the update leads to the same array and the same stamps. */
  predicate SameGoal(u: Update, rate: real, mixed: bool, s: ArrayState, tm: Times, buffer: bool, s': ArrayState, tm': Times,
                     buffer': bool)
    requires rate >= 1.0 && s.Used() <= s.cap && s'.Used() <= s'.cap
  {
    && Inserted(s', u, rate) == Inserted(s, u, rate)
    && InsertedTimes(s', tm', rate, buffer', mixed) == InsertedTimes(s, tm, rate, buffer, mixed)
  }

  lemma {:induction false} GoalStarts(u: Update, rate: real, mixed: bool, s: ArrayState, tm: Times, buffer: bool)
    requires rate >= 1.0 && s.Used() <= s.cap
    ensures SameGoal(u, rate, mixed, s, tm, buffer, s, tm, buffer)
  {
  }

  lemma {:induction false} GoalExpands(u: Update, rate: real, mixed: bool, s: ArrayState, tm: Times, buffer: bool, s': ArrayState,
                                      tm': Times, buffer': bool)
    requires rate >= 1.0 && s.Used() <= s.cap && s'.Used() == s'.cap && SameGoal(u, rate, mixed, s, tm, buffer, s', tm', buffer')
    ensures SameGoal(u, rate, mixed, s, tm, buffer, Expanded(s', rate), Restamped(tm'), mixed)
  {
    InsertedExpands(s', u, rate);
    TimesExpand(s', tm', rate, buffer', mixed);
  }

  lemma {:induction false} GoalReached(u: Update, rate: real, mixed: bool, s: ArrayState, tm: Times, buffer: bool, s': ArrayState,
                                      tm': Times, buffer': bool)
    requires rate >= 1.0 && s.Used() <= s.cap && s'.Used() < s'.cap && SameGoal(u, rate, mixed, s, tm, buffer, s', tm', buffer')
    ensures Appends(s', u, Inserted(s, u, rate)) && Stamped(tm', buffer') == InsertedTimes(s, tm, rate, buffer, mixed)
  {
    InsertedAppends(s', u, rate);
    TimesAppend(s', tm', rate, buffer', mixed);
  }

  /** `tm'` has one stamp more than `tm`, the last one drawn: behind the others if a slot was free (`room`), else as the only
      one behind a snapshot stamped just before. */
  ghost predicate OneStampMore(tm: Times, tm': Times, room: bool) {
    && Orderly(tm') && tm'.clock > tm.clock
    && (if room then tm' == Times(tm.stamps + [tm.clock], tm.snapTs, tm.clock + 1)
        else tm'.stamps == [tm'.clock - 1] && tm'.snapTs == tm'.clock - 2 >= tm.clock)
  }

  lemma {:induction false} StampedOrderly(tm: Times)
    requires Orderly(tm)
    ensures OneStampMore(tm, Stamped(tm, true), true)
  {
  }

  lemma {:induction false} RestampedOnce(tm: Times, tm': Times, room: bool)
    requires OneStampMore(Restamped(tm), tm', room)
    ensures OneStampMore(tm, tm', false)
  {
  }

  /** In mixed mode an update draws one stamp for its record, and the stamps go on ascending. */
  lemma {:induction false} OneStampPerUpdate(s: ArrayState, tm: Times, rate: real)
    requires rate >= 1.0 && s.Used() <= s.cap && Orderly(tm)
    ensures OneStampMore(tm, InsertedTimes(s, tm, rate, true, true), s.Used() < s.cap)
    decreases if s.Used() < s.cap then 0 else if s.log == [] then 1 else 2
  {
    if s.Used() < s.cap {
      StampedOrderly(tm);
    } else {
      var s' := Expanded(s, rate);
      OneStampPerUpdate(s', Restamped(tm), rate);
      RestampedOnce(tm, InsertedTimes(s', Restamped(tm), rate, true, true), s'.Used() < s'.cap);
    }
  }

  lemma {:induction false} InsertFits(s: ArrayState, u: Update, rate: real)
    requires rate >= 1.0 && s.Used() <= s.cap
    ensures Inserted(s, u, rate).Used() <= Inserted(s, u, rate).cap
    decreases if s.Used() < s.cap then 0 else if s.log == [] then 1 else 2
  {
    if s.Used() >= s.cap {
      InsertFits(Expanded(s, rate), u, rate);
    }
  }

  lemma {:induction false} InsertedExpands(s: ArrayState, u: Update, rate: real)
    requires rate >= 1.0 && s.Used() == s.cap
    ensures Inserted(s, u, rate) == Inserted(Expanded(s, rate), u, rate)
  {
  }

  predicate Appends(s: ArrayState, u: Update, s': ArrayState) {
    s' == s.(log := s.log + [u])
  }

  lemma {:induction false} InsertedAppends(s: ArrayState, u: Update, rate: real)
    requires rate >= 1.0 && s.Used() < s.cap
    ensures Appends(s, u, Inserted(s, u, rate))
  {
  }

  /** Expansion never allocates more than `rate` times the degree and ten slots, unless the compacted edges outnumber the
      degree counter; then it ends at most seven slots above them. */
  lemma {:induction false} ExpandedSpace(s: ArrayState, rate: real)
    requires rate >= 1.0
    ensures var s' := Expanded(s, rate);
            || s'.cap as real <= (if s.Deg() > 0 then s.Deg() as real * rate else 0.0) + 10.0
            || s'.Used() <= s'.cap <= s'.Used() + 7
  {
    AllocationExact(s.Deg(), rate, 2);
    GrownTight(Allocation(s.Deg(), rate, 2), |Expanded(s, rate).snap|);
  }

  lemma {:induction false} GrownTight(alloc: nat, num: nat)
    ensures Grown(alloc, num) == alloc || Grown(alloc, num) <= num + 7
    decreases if num > alloc then num - alloc else 0
  {
    if num > alloc {
      GrownTight(alloc + 8, num);
    }
  }

  /** A stream of updates on a new vertex. */
  function Run(us: seq<Update>, rate: real): (s: ArrayState)
    requires rate >= 1.0
    ensures s.Used() <= s.cap
  {
    if us == [] then EMPTY
    else
      var s := Run(us[..|us| - 1], rate);
      InsertFits(s, us[|us| - 1], rate);
      Inserted(s, us[|us| - 1], rate)
  }

  lemma {:induction false} CompactedKeeps(s: ArrayState, s': ArrayState)
    requires s.Ok() && s'.Used() <= s'.cap && s'.log == []
    requires s'.snap == Compact(s.snap + Records(s.log), |s.snap|, |s.snap| + SumDelta(s.log))
    ensures s'.Ok() && s'.Live() == s.Live()
  {
    CompactPreservesMeaning(s.snap, s.log);
    FreshLog(s');
  }

  /** Expansion is invisible: the new array is a snapshot of the same edges. */
  lemma {:induction false} ExpandKeeps(s: ArrayState, rate: real)
    requires rate >= 1.0 && s.Ok()
    ensures Expanded(s, rate).Ok() && Expanded(s, rate).Live() == s.Live()
  {
    CompactedKeeps(s, Expanded(s, rate));
  }

  lemma {:induction false} FreshLog(s: ArrayState)
    requires s.log == [] && s.Used() <= s.cap && IsSnapshot(s.snap)
    ensures s.Ok() && s.Live() == Replay(s.snap)
  {
    assert Records(s.log) == [];
  }

  /** One update of a vertex, through any number of expansions, is one update of the map. */
  lemma {:induction false} InsertRefines(s: ArrayState, u: Update, rate: real)
    requires rate >= 1.0 && s.Ok() && Legal(s.Live(), u)
    ensures var s' := Inserted(s, u, rate);
            s'.Ok() && s'.Live() == Apply(s.Live(), u.Record())
    decreases if s.Used() < s.cap then 0 else if s.log == [] then 1 else 2
  {
    if s.Used() < s.cap {
      WellFormedAppend(Replay(s.snap), s.log, u);
      ReplayAppend(Replay(s.snap), s.log, u);
    } else {
      ExpandKeeps(s, rate);
      InsertRefines(Expanded(s, rate), u, rate);
    }
  }

  /** A whole stream leaves exactly the latest-wins map of its records, whatever was compacted on the way. */
  lemma {:induction false} RunRefines(us: seq<Update>, rate: real)
    requires rate >= 1.0 && WellFormed(map[], us)
    ensures Run(us, rate).Ok() && Run(us, rate).Live() == Replay(Records(us))
  {
    if us == [] {
      assert Records([]) == [];
    } else {
      var us' := us[..|us| - 1];
      var u := us[|us| - 1];
      assert us == us' + [u];
      WellFormedAppend(map[], us', u);
      ReplayAppend(map[], us', u);
      RunRefines(us', rate);
      InsertRefines(Run(us', rate), u, rate);
    }
  }

  /** The amortization: scans so far are paid for by the `done` updates that have left the log, and the current array
      has room for `rate` times its snapshot. */
  ghost predicate Budget(cap: nat, snap: nat, scanned: nat, done: nat, rate: real) {
    && Scales(cap, snap, rate)
    && (rate - 1.0) * scanned as real <= rate * done as real
  }

  ghost predicate Paid(s: ArrayState, k: nat, rate: real) {
    && s.Ok() && Strict(Replay(s.snap), s.log)
    && |s.log| <= k
    && Budget(s.cap, |s.snap|, s.scanned, k - |s.log|, rate)
  }

  lemma {:induction false} BudgetExpand(cap: nat, snap: nat, log: nat, scanned: nat, done: nat, deg: nat, cap': nat, rate: real)
    requires rate >= 1.0 && Budget(cap, snap, scanned, done, rate) && cap == snap + log
    requires Scales(cap', deg, rate)
    ensures Budget(cap', deg, scanned + cap, done + log, rate)
  {
    var c, s, l, x, d := cap as real, snap as real, log as real, scanned as real, done as real;
    assert c == s + l;
    assert rate * c == rate * s + rate * l;
    assert (rate - 1.0) * c == rate * c - c;
    assert (rate - 1.0) * (x + c) == (rate - 1.0) * x + (rate - 1.0) * c;
    assert rate * (d + l) == rate * d + rate * l;
    assert (scanned + cap) as real == x + c && (done + log) as real == d + l;
  }

  lemma {:induction false} ExpandStrict(s: ArrayState, s': ArrayState, rate: real)
    requires rate >= 1.0 && s.Ok() && Strict(Replay(s.snap), s.log) && s.Used() == s.cap
    requires s' == Expanded(s, rate)
    ensures s'.Ok() && s'.log == [] && |s'.snap| == s.Deg()
    ensures Scales(s'.cap, |s'.snap|, rate) && s'.scanned == s.scanned + s.cap
  {
    ExpandKeeps(s, rate);
    StrictCompactLength(s.snap, s.log, s'.snap);
    AllocationScales(s.Deg(), rate, 2);
    ScalesUp(Allocation(s.Deg(), rate, 2), s'.cap, s.Deg(), rate);
  }

  lemma {:induction false} ExpandPaid(s: ArrayState, k: nat, rate: real)
    requires rate >= 1.0 && Paid(s, k, rate) && s.Used() == s.cap
    ensures Paid(Expanded(s, rate), k, rate)
  {
    var s' := Expanded(s, rate);
    ExpandStrict(s, s', rate);
    BudgetExpand(s.cap, |s.snap|, |s.log|, s.scanned, k - |s.log|, |s'.snap|, s'.cap, rate);
  }

  lemma {:induction false} InsertPaid(s: ArrayState, u: Update, k: nat, rate: real)
    requires rate >= 1.0 && Paid(s, k, rate) && StrictlyLegal(s.Live(), u)
    ensures Paid(Inserted(s, u, rate), k + 1, rate)
    decreases if s.Used() < s.cap then 0 else if s.log == [] then 1 else 2
  {
    if s.Used() < s.cap {
      WellFormedAppend(Replay(s.snap), s.log, u);
    } else {
      ExpandPaid(s, k, rate);
      ExpandKeeps(s, rate);
      InsertPaid(Expanded(s, rate), u, k, rate);
    }
  }

  lemma {:induction false} RunPaid(us: seq<Update>, rate: real)
    requires rate >= 1.0 && Strict(map[], us)
    ensures Paid(Run(us, rate), |us|, rate)
  {
    StrictIsWellFormed(map[], us);
    if us != [] {
      var us' := us[..|us| - 1];
      var u := us[|us| - 1];
      assert us == us' + [u];
      WellFormedAppend(map[], us', u);
      RunPaid(us', rate);
      StrictIsWellFormed(map[], us');
      RunRefines(us', rate);
      InsertPaid(Run(us', rate), u, |us'|, rate);
    }
  }

  lemma {:induction false} BudgetBound(cap: nat, snap: nat, scanned: nat, done: nat, k: nat, rate: real)
    requires rate >= 1.0 && done <= k && Budget(cap, snap, scanned, done, rate)
    ensures (rate - 1.0) * scanned as real <= rate * k as real
  {
    assert rate * done as real <= rate * k as real;
  }

  /** Scanning costs a constant factor of the number of updates. */
  ghost predicate Amortized(scanned: nat, k: nat, rate: real) {
    (rate - 1.0) * scanned as real <= rate * k as real
  }

  lemma {:induction false} PaidBound(s: ArrayState, k: nat, rate: real)
    requires rate >= 1.0 && Paid(s, k, rate)
    ensures Amortized(s.scanned, k, rate)
  {
    BudgetBound(s.cap, |s.snap|, s.scanned, k - |s.log|, k, rate);
  }

  /** Constant amortized cost for every expansion rate above one. */
  lemma {:induction false} AmortizedScan(us: seq<Update>, rate: real)
    requires rate >= 1.0 && Strict(map[], us)
    ensures Amortized(Run(us, rate).scanned, |us|, rate)
  {
    RunPaid(us, rate);
    PaidBound(Run(us, rate), |us|, rate);
  }

  /** At most two scanned slots an update for the default rate two. */
  lemma {:induction false} AtMostTwoSlotsPerUpdate(us: seq<Update>)
    requires Strict(map[], us)
    ensures Run(us, 2.0).scanned <= 2 * |us|
  {
    AmortizedScan(us, 2.0);
  }

  /** Ascending destinations, none twice: the order `CreateSnapshots` leaves when asked to sort. */
  ghost predicate Ascending(s: seq<Edge>) {
    forall j, k | 0 <= j < k < |s| :: s[j].idx < s[k].idx
  }

  function InsertByIdx(e: Edge, s: seq<Edge>): seq<Edge> {
    if s == [] || e.idx <= s[0].idx then [e] + s else [s[0]] + InsertByIdx(e, s[1..])
  }

  function SortByIdx(s: seq<Edge>): seq<Edge> {
    if s == [] then [] else InsertByIdx(s[0], SortByIdx(s[1..]))
  }

  lemma {:induction false} InsertByIdxSorts(e: Edge, s: seq<Edge>)
    requires Ascending(s) && forall k | 0 <= k < |s| :: s[k].idx != e.idx
    ensures Ascending(InsertByIdx(e, s)) && |InsertByIdx(e, s)| == |s| + 1
    ensures forall x :: x in InsertByIdx(e, s) <==> x == e || x in s
  {
    if s != [] && e.idx > s[0].idx {
      InsertByIdxSorts(e, s[1..]);
      var t := InsertByIdx(e, s[1..]);
      forall k | 0 <= k < |t| ensures s[0].idx < t[k].idx {
        assert t[k] in t;
      }
      assert forall x :: x in s <==> x == s[0] || x in s[1..];
    }
  }

  lemma {:induction false} SortByIdxSorts(s: seq<Edge>)
    requires IsSnapshot(s)
    ensures Ascending(SortByIdx(s)) && |SortByIdx(s)| == |s|
    ensures forall x :: x in SortByIdx(s) <==> x in s
  {
    if s != [] {
      SortByIdxSorts(s[1..]);
      var t := SortByIdx(s[1..]);
      forall k | 0 <= k < |t| ensures t[k].idx != s[0].idx {
        assert t[k] in s[1..];
      }
      InsertByIdxSorts(s[0], t);
      assert forall x :: x in s <==> x == s[0] || x in s[1..];
    }
  }

  /** Snapshots with the same entries in any order replay to the same map. */
  lemma {:induction false} SameEntriesSameMap(a: seq<Edge>, b: seq<Edge>)
    requires IsSnapshot(a) && IsSnapshot(b) && forall x :: x in a <==> x in b
    ensures Replay(a) == Replay(b)
  {
    ReplaySnapshot(a);
    ReplaySnapshot(b);
    forall d ensures d in Replay(a) <==> d in Replay(b) {
      if d in Replay(a) {
        var k :| 0 <= k < |a| && a[k].idx == d;
        assert a[k] in b;
      }
      if d in Replay(b) {
        var k :| 0 <= k < |b| && b[k].idx == d;
        assert b[k] in a;
      }
    }
    forall d | d in Replay(a) ensures Replay(a)[d] == Replay(b)[d] {
      var k :| 0 <= k < |a| && a[k].idx == d;
      assert a[k] in b;
      var j :| 0 <= j < |b| && b[j] == a[k];
    }
  }

  lemma {:induction false} SortKeepsMap(s: seq<Edge>)
    requires IsSnapshot(s)
    ensures IsSnapshot(SortByIdx(s)) && Replay(SortByIdx(s)) == Replay(s)
  {
    SortByIdxSorts(s);
    var t := SortByIdx(s);
    forall k | 0 <= k < |t| ensures t[k].weight != 0.0 {
      assert t[k] in s;
    }
    SameEntriesSameMap(t, s);
  }

  lemma {:induction false} LegalAppend(snap: seq<Edge>, log: seq<Update>, u: Update, before: seq<Edge>)
    requires before == snap + Records(log) && WellFormed(Replay(snap), log) && Legal(Replay(before), u)
    ensures WellFormed(Replay(snap), log + [u])
  {
    ReplayConcat(map[], snap, Records(log));
    WellFormedAppend(Replay(snap), log, u);
  }

  lemma {:induction false} AppendRecord(snap: seq<Edge>, log: seq<Update>, u: Update, before: seq<Edge>, after: seq<Edge>)
    requires before == snap + Records(log) && after == before + [u.Record()]
    ensures after == snap + Records(log + [u])
    ensures SumDelta(log + [u]) == SumDelta(log) + u.DeltaDeg()
    ensures Replay(after) == Apply(Replay(before), u.Record())
  {
    RecordsAppend(log, u);
    assert (log + [u])[..|log|] == log;
    assert after[..|before|] == before;
  }

  /** What reading `visible` entries of a snapshot and a log replays to. */
  lemma {:induction false} ReadMeans(snap: seq<Edge>, log: seq<Update>, edges: seq<Edge>, stamps: seq<int>, buffer: bool,
                                     visible: nat, t: int, r: seq<Edge>)
    requires edges == snap + Records(log) && IsSnapshot(snap) && |snap| <= visible <= |edges|
    requires r == ReadResult(edges, |snap|, visible, [])
    requires buffer ==> |stamps| == |log| && Rising(stamps) && visible == |snap| + VisibleCount(stamps, t)
    requires !buffer ==> visible == |edges|
    ensures IsSnapshot(r)
    ensures Replay(r) == if buffer then ReplayFrom(Replay(snap), Records(StampedUpTo(log, stamps, t))) else Replay(edges)
  {
    SnapshotFirst(snap, log, edges);
    ReadIsReplay(edges, |snap|, visible);
    VisibleLog(snap, log, edges, visible - |snap|);
    if buffer {
      VisibleIsStamped(log, stamps, t);
    } else {
      assert edges[..visible] == edges;
    }
  }

  /** A vertex and its current edge array. The ghost fields remember the snapshot and the updates logged since. */
  class Vertex {
    var next: WeightedEdgeArray
    ghost var snap: seq<Edge>
    ghost var log: seq<Update>
    ghost var scanned: nat

    /** Everything except the reservation counter `size`, which an insert in progress has already moved. */
    ghost predicate Core()
      reads this, next, next.edge
    {
      && next.Valid()
      && |snap| == next.snapshotDeg && next.Written() == snap + Records(log)
      && next.deg == |snap| + SumDelta(log)
      && IsSnapshot(snap) && WellFormed(Replay(snap), log)
    }

    ghost predicate Valid()
      reads this, next, next.edge
    {
      Core() && next.size == next.physicalSize
    }

    ghost function Abs(): (s: ArrayState)
      reads this, next
    {
      ArrayState(next.cap, snap, log, scanned)
    }

    /** The stamps of the log records, none without a timestamp buffer. */
    ghost function Stamps(): seq<int>
      requires next.Valid()
      reads this, next, next.edge, next.timestamp
    {
      if next.timestamp == null then [] else next.timestamp[..next.physicalSize - next.snapshotDeg]
    }

    /** The array has a timestamp buffer exactly in mixed mode. */
    ghost predicate Mode(info: GlobalInfo)
      reads this, next, info
    {
      (next.timestamp != null) == info.isMixedWorkloads
    }

    ghost function Timed(info: GlobalInfo): Times
      requires next.Valid()
      reads this, next, next.edge, next.timestamp, info
    {
      Times(Stamps(), next.snapshotTimestamp, info.globalTimestamp)
    }

    ghost function Live(): map<int, real>
      requires next.Valid()
      reads this, next, next.edge
    {
      Replay(next.Written())
    }

    lemma {:induction false} LiveIsAbs()
      requires Core()
      ensures Abs().Ok() && Live() == Abs().Live()
    {
      ReplayConcat(map[], snap, Records(log));
    }

    /** A new vertex; in mixed mode its array has a timestamp buffer from the start. */
    constructor (info: GlobalInfo)
      ensures Valid() && Abs() == EMPTY && Live() == map[]
      ensures fresh(next) && fresh(next.edge) && (next.timestamp != null ==> fresh(next.timestamp))
      ensures Mode(info) && Timed(info) == Times([], 0, info.globalTimestamp)
    {
      next := new WeightedEdgeArray(INITIAL_CAPACITY);
      snap, log, scanned := [], [], 0;
      new;
      if info.isMixedWorkloads {
        next.timestamp := new int[INITIAL_CAPACITY];
      }
    }

    static method NewArrayFor(counter: int, rate: real, overshoot: nat) returns (a: WeightedEdgeArray)
      requires rate >= 1.0
      ensures fresh(a) && a.Valid() && fresh(a.edge) && a.timestamp == null && a.cap == Allocation(counter, rate, overshoot)
    {
      var deg := if counter > 0 then counter else 0;
      a := new WeightedEdgeArray(Allocation(deg, rate, overshoot));
    }

    /** Compacts the full current array into a fresh one. */
    method Compacted(rate: real, bitmap: SegmentedBitmap, info: GlobalInfo) returns (newArray: WeightedEdgeArray)
      requires rate >= 1.0 && Core() && next.physicalSize == next.cap && next.size == next.cap + 1
      requires bitmap.Valid() && bitmap.bits == {}
      modifies bitmap, info
      ensures fresh(newArray) && newArray.Valid() && fresh(newArray.edge) && newArray.Written() == Expanded(Abs(), rate).snap
      ensures newArray.snapshotDeg == newArray.physicalSize == newArray.size == newArray.deg
      ensures newArray.cap == Expanded(Abs(), rate).cap
      ensures newArray.timestamp != null ==> fresh(newArray.timestamp)
      ensures (newArray.timestamp != null) == info.isMixedWorkloads
      ensures newArray.snapshotTimestamp == old(info.globalTimestamp) && info.globalTimestamp == old(info.globalTimestamp) + 1
      ensures bitmap.Valid() && bitmap.bits == {}
      ensures info.isMixedWorkloads == old(info.isMixedWorkloads)
    {
      newArray := NewArrayFor(next.deg, rate, next.size - next.cap + 1);
      newArray := LogCompaction(next, newArray, bitmap, info);
      assert newArray.Written() == Compact(snap + Records(log), |snap|, Abs().Deg());
    }

    /** Replaces the full current array by a compacted, larger one and frees the obsolete buffers. */
    method Expand(rate: real, bitmap: SegmentedBitmap, info: GlobalInfo)
      requires rate >= 1.0 && Core() && next.physicalSize == next.cap && next.size == next.cap + 1
      requires bitmap.Valid() && bitmap.bits == {}
      modifies this, next, bitmap, info
      ensures Valid() && Abs() == Expanded(old(Abs()), rate) && Live() == old(Live())
      ensures Timed(info) == Restamped(old(Timed(info)))
      ensures fresh(next) && fresh(next.edge) && (next.timestamp != null ==> fresh(next.timestamp))
      ensures (next.timestamp != null) == info.isMixedWorkloads
      ensures bitmap.Valid() && bitmap.bits == {}
      ensures info.isMixedWorkloads == old(info.isMixedWorkloads)
    {
      LiveIsAbs();
      ghost var s := Abs();
      ExpandKeeps(s, rate);
      var newArray := Compacted(rate, bitmap, info);
      var obsolete := next;
      next := newArray;
      obsolete.edge := null;
      obsolete.timestamp := null;
      snap := newArray.Written();
      log := [];
      scanned := scanned + obsolete.physicalSize;
      assert Records(log) == [];
      LiveIsAbs();
    }

    /** Fills the reserved slot. */
    method Write(des: nat, weight: real, deltaDeg: int, ghost u: Update, info: GlobalInfo)
      requires Core() && next.physicalSize < next.cap && next.size == next.physicalSize + 1
      requires u.Record() == Edge(weight, des) && u.DeltaDeg() == deltaDeg && Legal(Live(), u)
      modifies this`log, next, next.edge, next.timestamp, info
      ensures Valid() && next == old(next) && next.edge == old(next.edge) && next.timestamp == old(next.timestamp)
      ensures Abs() == old(Abs()).(log := old(log) + [u]) && Live() == Apply(old(Live()), u.Record())
      ensures Timed(info) == Stamped(old(Timed(info)), next.timestamp != null)
      ensures info.isMixedWorkloads == old(info.isMixedWorkloads)
    {
      ghost var before, times := next.Written(), Timed(info);
      LegalAppend(snap, log, u, before);
      next.WriteSlot(Edge(weight, des), deltaDeg, info);
      ghost var after := next.Written();
      AppendRecord(snap, log, u, before, after);
      assert Timed(info) == Stamped(times, next.timestamp != null);
      log := log + [u];
      assert next.Written() == after == snap + Records(log);
    }

    /** Reserves a slot, expanding as often as it takes. */
    method Reserve(rate: real, bitmap: SegmentedBitmap, info: GlobalInfo, ghost u: Update)
      requires rate >= 1.0 && Valid() && bitmap.Valid() && bitmap.bits == {}
      modifies this, next, bitmap, info
      ensures Core() && next.physicalSize < next.cap && next.size == next.physicalSize + 1
      ensures Appends(Abs(), u, Inserted(old(Abs()), u, rate)) && Live() == old(Live())
      ensures Stamped(Timed(info), next.timestamp != null)
           == InsertedTimes(old(Abs()), old(Timed(info)), rate, old(next.timestamp != null), old(info.isMixedWorkloads))
      ensures (next == old(next) && next.edge == old(next.edge) && next.timestamp == old(next.timestamp))
           || (fresh(next) && fresh(next.edge) && (next.timestamp != null ==> fresh(next.timestamp)))
      ensures old(Mode(info)) ==> Mode(info)
      ensures bitmap.Valid() && bitmap.bits == {}
      ensures info.isMixedWorkloads == old(info.isMixedWorkloads)
    {
      ghost var s, times, buffer, live, mode := Abs(), Timed(info), next.timestamp != null, Live(), Mode(info);
      GoalStarts(u, rate, info.isMixedWorkloads, s, times, buffer);
      var i := next.size;
      next.size := next.size + 1;
      while i >= next.cap
        invariant Core() && i == next.physicalSize && next.size == i + 1 && Live() == live
        invariant SameGoal(u, rate, info.isMixedWorkloads, s, times, buffer, Abs(), Timed(info), next.timestamp != null)
        invariant (next == old(next) && next.edge == old(next.edge) && next.timestamp == old(next.timestamp))
               || (fresh(next) && fresh(next.edge) && (next.timestamp != null ==> fresh(next.timestamp)))
        invariant mode ==> Mode(info)
        invariant bitmap.Valid() && bitmap.bits == {}
        invariant info.isMixedWorkloads == old(info.isMixedWorkloads)
        decreases if next.physicalSize < next.cap then 0 else if log == [] then 1 else 2
      {
        i := Replace(rate, bitmap, info, u, s, times, buffer);
      }
      GoalReached(u, rate, info.isMixedWorkloads, s, times, buffer, Abs(), Timed(info), next.timestamp != null);
    }

    /** Expands once and reserves a slot in the new array. */
    method Replace(rate: real, bitmap: SegmentedBitmap, info: GlobalInfo, ghost u: Update, ghost s: ArrayState, ghost times: Times,
                   ghost buffer: bool)
      returns (i: nat)
      requires rate >= 1.0 && Core() && next.physicalSize == next.cap && next.size == next.cap + 1
      requires bitmap.Valid() && bitmap.bits == {} && s.Used() <= s.cap
      requires SameGoal(u, rate, info.isMixedWorkloads, s, times, buffer, Abs(), Timed(info), next.timestamp != null)
      modifies this, next, bitmap, info
      ensures Core() && i == next.physicalSize && next.size == i + 1
      ensures log == [] && (old(log) == [] ==> next.physicalSize < next.cap)
      ensures Live() == old(Live())
      ensures SameGoal(u, rate, info.isMixedWorkloads, s, times, buffer, Abs(), Timed(info), next.timestamp != null)
      ensures fresh(next) && fresh(next.edge) && (next.timestamp != null ==> fresh(next.timestamp))
      ensures Mode(info)
      ensures bitmap.Valid() && bitmap.bits == {}
      ensures info.isMixedWorkloads == old(info.isMixedWorkloads)
    {
      GoalExpands(u, rate, info.isMixedWorkloads, s, times, buffer, Abs(), Timed(info), next.timestamp != null);
      Expand(rate, bitmap, info);
      i := next.size;
      next.size := next.size + 1;
    }

    /** One update, as `RadixGraph::Insert` does it when no other thread is active. The vertex moves as the abstract
        `Inserted` says, and the map it represents changes by exactly one record. */
    method Insert(des: nat, weight: real, deltaDeg: int, ghost u: Update, rate: real, bitmap: SegmentedBitmap,
                  info: GlobalInfo)
      requires rate >= 1.0 && Valid() && bitmap.Valid() && bitmap.bits == {}
      requires u.Record() == Edge(weight, des) && u.DeltaDeg() == deltaDeg && Legal(Live(), u)
      modifies this, next, next.edge, next.timestamp, bitmap, info
      ensures Valid() && Abs() == Inserted(old(Abs()), u, rate)
      ensures Live() == Apply(old(Live()), u.Record())
      ensures Timed(info) == InsertedTimes(old(Abs()), old(Timed(info)), rate, old(next.timestamp != null), info.isMixedWorkloads)
      ensures next == old(next) || (fresh(next) && fresh(next.edge))
      ensures old(Mode(info)) ==> Mode(info)
      ensures bitmap.Valid() && bitmap.bits == {}
      ensures info.isMixedWorkloads == old(info.isMixedWorkloads)
    {
      ghost var target := Inserted(Abs(), u, rate);
      ghost var times := InsertedTimes(Abs(), Timed(info), rate, next.timestamp != null, info.isMixedWorkloads);
      Reserve(rate, bitmap, info, u);
      assert Appends(Abs(), u, target) && Stamped(Timed(info), next.timestamp != null) == times;
      Write(des, weight, deltaDeg, u, info);
      assert Abs() == target && Timed(info) == times;
    }

    method InsertEdge(des: nat, weight: real, rate: real, bitmap: SegmentedBitmap, info: GlobalInfo)
      requires rate >= 1.0 && Valid() && bitmap.Valid() && bitmap.bits == {}
      requires des !in Live() && weight != 0.0
      modifies this, next, next.edge, next.timestamp, bitmap, info
      ensures Valid() && Live() == old(Live())[des := weight]
      ensures Timed(info) == InsertedTimes(old(Abs()), old(Timed(info)), rate, old(next.timestamp != null), info.isMixedWorkloads)
      ensures bitmap.Valid() && bitmap.bits == {}
    {
      Insert(des, weight, 1, Update.InsertEdge(des, weight), rate, bitmap, info);
    }

    method UpdateEdge(des: nat, weight: real, rate: real, bitmap: SegmentedBitmap, info: GlobalInfo)
      requires rate >= 1.0 && Valid() && bitmap.Valid() && bitmap.bits == {}
      modifies this, next, next.edge, next.timestamp, bitmap, info
      ensures Valid() && Live() == if weight == 0.0 then old(Live()) - {des} else old(Live())[des := weight]
      ensures Timed(info) == InsertedTimes(old(Abs()), old(Timed(info)), rate, old(next.timestamp != null), info.isMixedWorkloads)
      ensures bitmap.Valid() && bitmap.bits == {}
    {
      Insert(des, weight, 0, Update.UpdateEdge(des, weight), rate, bitmap, info);
    }

    method DeleteEdge(des: nat, rate: real, bitmap: SegmentedBitmap, info: GlobalInfo)
      requires rate >= 1.0 && Valid() && bitmap.Valid() && bitmap.bits == {}
      modifies this, next, next.edge, next.timestamp, bitmap, info
      ensures Valid() && Live() == old(Live()) - {des}
      ensures Timed(info) == InsertedTimes(old(Abs()), old(Timed(info)), rate, old(next.timestamp != null), info.isMixedWorkloads)
      ensures bitmap.Valid() && bitmap.bits == {}
    {
      Insert(des, 0.0, -1, Update.DeleteEdge(des), rate, bitmap, info);
    }

    /** Reading the current version at any timestamp not below its snapshot's: exactly the edges left by the snapshot and the
        updates stamped at most `t`, each once. Without a timestamp buffer every update counts. */
    method Neighbours(bitmap: SegmentedBitmap, t: int) returns (neighbours: seq<Edge>)
      requires Valid() && bitmap.Valid() && bitmap.bits == {}
      requires next.snapshotTimestamp <= t && Rising(Stamps())
      modifies bitmap
      ensures next.timestamp != null ==> |Stamps()| == |log|
      ensures IsSnapshot(neighbours)
      ensures Replay(neighbours) == if next.timestamp == null then Live()
                                    else ReplayFrom(Replay(snap), Records(StampedUpTo(log, Stamps(), t)))
      ensures bitmap.Valid() && bitmap.bits == {}
    {
      neighbours := GetNeighbours(next, t, [], bitmap);
      ReadMeaning(t, neighbours);
    }

    lemma {:induction false} ReadMeaning(t: int, r: seq<Edge>)
      requires Core() && Rising(Stamps())
      requires r == ReadResult(next.Written(), next.snapshotDeg, Visible(next, t), [])
      ensures next.timestamp != null ==> |Stamps()| == |log|
      ensures IsSnapshot(r)
      ensures Replay(r) == if next.timestamp == null then Live()
                           else ReplayFrom(Replay(snap), Records(StampedUpTo(log, Stamps(), t)))
    {
      ReadMeans(snap, log, next.Written(), Stamps(), next.timestamp != null, Visible(next, t), t, r);
    }

    /** A read no record is too new for lists the live edges. */
    lemma {:induction false} AllStamped(t: int)
      requires Core() && next.timestamp != null && forall i | 0 <= i < |Stamps()| :: Stamps()[i] <= t
      ensures |Stamps()| == |log| && StampedUpTo(log, Stamps(), t) == log
      ensures ReplayFrom(Replay(snap), Records(log)) == Live()
    {
      StampedAll(log, Stamps(), t);
      ReplayConcat(map[], snap, Records(log));
    }

    /** The exclusive compaction of `CreateSnapshots` for one vertex. A dense array gets exactly the capacity its degree
        counter promises, which still holds the unchecked copy. */
    method CreateSnapshot(makeDense: bool, sortNeighbours: bool, rate: real, bitmap: SegmentedBitmap, info: GlobalInfo)
      requires rate >= 1.0 && Valid() && bitmap.Valid() && bitmap.bits == {}
      modifies this, bitmap, info
      ensures Valid() && Live() == old(Live()) && log == [] && fresh(next) && fresh(next.edge)
      ensures next.snapshotDeg == next.physicalSize && IsSnapshot(next.Written())
      ensures sortNeighbours ==> Ascending(next.Written())
      ensures next.cap == Grown(if !makeDense then Allocation(old(next.deg), rate, 0)
                                else if old(next.deg) > 0 then old(next.deg) else 0, next.physicalSize)
      ensures Timed(info) == Restamped(old(Timed(info))) && Mode(info)
      ensures bitmap.Valid() && bitmap.bits == {}
    {
      Renew(makeDense, rate, bitmap, info);
      if sortNeighbours && next.physicalSize > 1 {
        SortEdges();
      }
    }

    /** Replaces the array by its compaction. */
    method Renew(makeDense: bool, rate: real, bitmap: SegmentedBitmap, info: GlobalInfo)
      requires rate >= 1.0 && Valid() && bitmap.Valid() && bitmap.bits == {}
      modifies this, bitmap, info
      ensures Valid() && Live() == old(Live()) && log == [] && fresh(next) && fresh(next.edge)
      ensures next.snapshotDeg == next.physicalSize && IsSnapshot(next.Written())
      ensures next.cap == Grown(if !makeDense then Allocation(old(next.deg), rate, 0)
                                else if old(next.deg) > 0 then old(next.deg) else 0, next.physicalSize)
      ensures Timed(info) == Restamped(old(Timed(info))) && Mode(info)
      ensures bitmap.Valid() && bitmap.bits == {}
    {
      CompactArray(snap, log, next.Written());
      next := SnapshotOf(next, makeDense, rate, bitmap, info);
      snap := next.Written();
      log := [];
      assert Records(log) == [];
    }

    static method SnapshotOf(arr: WeightedEdgeArray, makeDense: bool, rate: real, bitmap: SegmentedBitmap, info: GlobalInfo)
      returns (r: WeightedEdgeArray)
      requires rate >= 1.0 && arr.Valid() && bitmap.Valid() && bitmap.bits == {}
      modifies bitmap, info
      ensures fresh(r) && r.Valid() && fresh(r.edge)
      ensures r.Written() == Compact(arr.Written(), arr.snapshotDeg, arr.deg)
      ensures r.size == r.physicalSize == r.snapshotDeg == r.deg
      ensures r.cap == Grown(if !makeDense then Allocation(arr.deg, rate, 0) else if arr.deg > 0 then arr.deg else 0,
                             r.physicalSize)
      ensures r.timestamp != null ==> fresh(r.timestamp)
      ensures (r.timestamp != null) == info.isMixedWorkloads
      ensures r.snapshotTimestamp == old(info.globalTimestamp) && info.globalTimestamp == old(info.globalTimestamp) + 1
      ensures bitmap.Valid() && bitmap.bits == {}
    {
      if !makeDense {
        r := NewArrayFor(arr.deg, rate, 0);
      } else {
        r := new WeightedEdgeArray(if arr.deg > 0 then arr.deg else 0);
      }
      r := LogCompaction(arr, r, bitmap, info);
    }

    /** The library sort of the snapshot by destination. */
    method SortEdges()
      requires Valid() && log == [] && next.snapshotDeg == next.physicalSize
      modifies this`snap, next.edge
      ensures Valid() && Live() == old(Live()) && Ascending(next.Written())
    {
      var n := next.physicalSize;
      var before := next.edge[..n];
      var sorted := SortByIdx(before);
      assert before == snap;
      SortByIdxSorts(before);
      SortKeepsMap(before);
      forall i | 0 <= i < n {
        next.edge[i] := sorted[i];
      }
      assert next.edge[..n] == sorted;
      snap := sorted;
      assert Records(log) == [];
      forall i | 0 <= i < n ensures next.edge[i].idx >= 0 {
        assert sorted[i] in before;
      }
    }
  }
}
