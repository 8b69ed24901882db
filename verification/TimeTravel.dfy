/** Reads at a past timestamp in mixed-workload mode.

    Every update of one vertex and every compaction draws a stamp from a global counter that other vertices and readers
    advance too. A read at timestamp `t` walks back from the current version to the newest one that still has its edge
    buffer and whose snapshot is stamped at most `t`, pins it while it replays the log records stamped at most `t`, and
    deletes it if it drops the last pin of an obsolete version. An expansion frees the buffer of the version it replaces
    unless that one is read, and then deletes the version before it unless that one is read. Updates, expansions and the
    two ends of a read are atomic here; the protocol that makes them so is modelled in InsertProtocol and VersionChain. */
module TimeTravel {
  import opened EdgeRecords
  import opened Compaction
  import opened EdgeArrays
  import opened VertexLog

  /** A WeightedEdgeArray with its timestamps. `readers` is its `threads_read`, `held` says whether it has its edge buffer,
      `linked` whether it is still in the chain. Freed contents are kept for the specification; no read looks at them. */
  datatype Version = Version(arr: ArrayState, stamps: seq<int>, snapTs: int, readers: nat, held: bool, linked: bool)
  {
    function Edges(): (s: seq<Edge>)
      ensures |s| == |arr.snap| + |arr.log| && s[..|arr.snap|] == arr.snap
    {
      arr.snap + Records(arr.log)
    }
  }

  datatype Stamped = Stamped(u: Update, at: int)

  /** All versions oldest first, the global counter, and the history of updates, which only the specification sees. */
  datatype Store = Store(versions: seq<Version>, clock: nat, history: seq<Stamped>)
  {
    function Current(): Version
      requires versions != []
    {
      versions[|versions| - 1]
    }
  }

  datatype Option<T> = None | Some(value: T)

  datatype Action = Tick | Append(u: Update) | Expand | BeginRead(t: int) | EndRead(k: nat)

  function Updates(h: seq<Stamped>): (us: seq<Update>)
    ensures |us| == |h| && forall k | 0 <= k < |h| :: us[k] == h[k].u
  {
    seq(|h|, k requires 0 <= k < |h| => h[k].u)
  }

  /** The latest-wins map of a stamped history. */
  function MapOf(h: seq<Stamped>): map<int, real> {
    Replay(Records(Updates(h)))
  }

  /** The updates stamped at most `t`. */
  function UpTo(h: seq<Stamped>, t: int): seq<Stamped> {
    if h == [] then []
    else UpTo(h[..|h| - 1], t) + (if h[|h| - 1].at <= t then [h[|h| - 1]] else [])
  }

  predicate Initial(s: Store) {
    s.versions == [NewVersion(EMPTY, 0)] && s.history == []
  }

  function NewVersion(arr: ArrayState, at: int): Version {
    Version(arr, [], at, 0, true, true)
  }

  /** An update must be legal after the history so far; it is appended once a slot is free. A read ends only after it has
      begun. */
  ghost predicate Enabled(s: Store, a: Action) {
    && s.versions != []
    && match a
       case Tick => true
       case Append(u) => s.Current().arr.Used() < s.Current().arr.cap && Legal(MapOf(s.history), u)
       case Expand => s.Current().arr.Used() >= s.Current().arr.cap
       case BeginRead(_) => true
       case EndRead(k) => k < |s.versions| && s.versions[k].readers > 0
  }

  function Appended(v: Version, u: Update, at: int): Version {
    v.(arr := v.arr.(log := v.arr.log + [u]), stamps := v.stamps + [at])
  }

  /** The logs of `vs`, none of them with more buffers than before. */
  ghost predicate SameLogs(vs: seq<Version>, vs': seq<Version>) {
    && |vs'| == |vs|
    && forall k | 0 <= k < |vs| ::
         && vs'[k].arr == vs[k].arr && vs'[k].stamps == vs[k].stamps && vs'[k].snapTs == vs[k].snapTs
         && (vs'[k].held ==> vs[k].held)
  }

  /** The newest version below `k` that is still in the chain. */
  function PrevLinked(vs: seq<Version>, k: nat): (r: Option<nat>)
    requires k <= |vs|
    ensures r.Some? ==> r.value < k && vs[r.value].linked
    ensures forall i | (if r.Some? then r.value + 1 else 0) <= i < k :: !vs[i].linked
  {
    if k == 0 then None
    else if vs[k - 1].linked then Some(k - 1)
    else PrevLinked(vs, k - 1)
  }

  /** Freeing what an expansion has made obsolete: the buffer of the replaced version and the version before it, as long as
      nobody reads them. */
  function Reclaimed(vs: seq<Version>): (r: seq<Version>)
    requires vs != []
    ensures SameLogs(vs, r)
    ensures forall k | 0 <= k < |vs| :: vs[k].readers > 0 ==> r[k] == vs[k]
    ensures forall k | 0 <= k < |vs| :: r[k].readers == vs[k].readers
  {
    var n := |vs| - 1;
    if vs[n].readers > 0 then vs
    else
      var freed := vs[n := vs[n].(held := false)];
      match PrevLinked(vs, n)
      case Some(p) => if vs[p].readers == 0 then freed[p := vs[p].(held := false, linked := false)] else freed
      case None => freed
  }

  /** A read of version `k` begins. */
  function Pinned(vs: seq<Version>, k: nat): seq<Version>
    requires k < |vs|
  {
    vs[k := vs[k].(readers := vs[k].readers + 1)]
  }

  /** A read of version `k` ends; the last one deletes an obsolete version. */
  function Unpinned(vs: seq<Version>, k: nat): seq<Version>
    requires k < |vs| && vs[k].readers > 0
  {
    var v := vs[k].(readers := vs[k].readers - 1);
    vs[k := if v.readers == 0 && k < |vs| - 1 then v.(held := false, linked := false) else v]
  }

  function Perform(s: Store, a: Action, rate: real): Store
    requires s.versions != [] && rate >= 1.0 && (a.EndRead? ==> a.k < |s.versions| && s.versions[a.k].readers > 0)
  {
    var n := |s.versions|;
    var cur := s.Current();
    match a
    case Tick => s.(clock := s.clock + 1)
    case Append(u) =>
      Store(s.versions[n - 1 := Appended(cur, u, s.clock)], s.clock + 1, s.history + [Stamped(u, s.clock)])
    case Expand =>
      Store(Reclaimed(s.versions) + [NewVersion(Expanded(cur.arr, rate), s.clock)], s.clock + 1, s.history)
    case BeginRead(t) =>
      (match Walk(s.versions, n, t)
       case Some(k) => s.(versions := Pinned(s.versions, k))
       case None => s)
    case EndRead(k) => s.(versions := Unpinned(s.versions, k))
  }

  /** The version a read at `t` ends at: the newest of the first `k` that is held and not too new. */
  function Walk(vs: seq<Version>, k: nat, t: int): (r: Option<nat>)
    requires k <= |vs|
    ensures r.Some? ==> r.value < k && vs[r.value].held && vs[r.value].snapTs <= t
    ensures forall i | (if r.Some? then r.value + 1 else 0) <= i < k :: !vs[i].held || vs[i].snapTs > t
  {
    if k == 0 then None
    else if vs[k - 1].held && vs[k - 1].snapTs <= t then Some(k - 1)
    else Walk(vs, k - 1, t)
  }

  function ReadVersion(v: Version, t: int): seq<Edge>
    requires |v.stamps| == |v.arr.log|
  {
    ReadResult(v.Edges(), |v.arr.snap|, |v.arr.snap| + VisibleCount(v.stamps, t), [])
  }

  predicate Stampable(vs: seq<Version>) {
    forall k | 0 <= k < |vs| :: |vs[k].stamps| == |vs[k].arr.log|
  }

  function Read(s: Store, t: int): Option<seq<Edge>>
    requires Stampable(s.versions)
  {
    match Walk(s.versions, |s.versions|, t)
    case None => None
    case Some(k) => Some(ReadVersion(s.versions[k], t))
  }

  // ----- The invariant -----

  function Logged(v: Version): (h: seq<Stamped>)
    requires |v.stamps| == |v.arr.log|
    ensures |h| == |v.stamps| && forall k | 0 <= k < |h| :: h[k] == Stamped(v.arr.log[k], v.stamps[k])
  {
    seq(|v.stamps|, k requires 0 <= k < |v.stamps| => Stamped(v.arr.log[k], v.stamps[k]))
  }

  /** Everything logged in the first `k` versions. */
  ghost function Before(vs: seq<Version>, k: nat): seq<Stamped>
    requires k <= |vs| && Stampable(vs)
  {
    if k == 0 then [] else Before(vs, k - 1) + Logged(vs[k - 1])
  }

  /** When version `k` stopped taking records. */
  function Until(vs: seq<Version>, clock: nat, k: nat): int
    requires k < |vs|
  {
    if k + 1 < |vs| then vs[k + 1].snapTs else clock
  }

  ghost predicate StampsOk(stamps: seq<int>, lo: int, hi: int) {
    && lo <= hi
    && (forall i | 0 <= i < |stamps| :: lo <= stamps[i] < hi)
    && (forall i, j | 0 <= i < j < |stamps| :: stamps[i] < stamps[j])
  }

  ghost predicate VersionOk(vs: seq<Version>, clock: nat, k: nat)
    requires k < |vs| && Stampable(vs)
  {
    && vs[k].arr.Ok()
    && StampsOk(vs[k].stamps, vs[k].snapTs, Until(vs, clock, k))
    && Replay(vs[k].arr.snap) == MapOf(Before(vs, k))
  }

  ghost predicate VersionsOk(vs: seq<Version>, clock: nat) {
    Stampable(vs) && forall k {:trigger VersionOk(vs, clock, k)} | 0 <= k < |vs| :: VersionOk(vs, clock, k)
  }

  /** Which versions have a buffer: the current one, and the obsolete ones somebody reads. */
  ghost predicate LifeOk(vs: seq<Version>, k: nat)
    requires k < |vs|
  {
    (vs[k].held <==> k == |vs| - 1 || vs[k].readers > 0) && (vs[k].held ==> vs[k].linked)
  }

  ghost predicate LivesOk(vs: seq<Version>) {
    forall k {:trigger LifeOk(vs, k)} | 0 <= k < |vs| :: LifeOk(vs, k)
  }

  ghost predicate Inv(s: Store) {
    LogsOk(s) && LivesOk(s.versions)
  }

  ghost predicate LogsOk(s: Store) {
    && s.versions != [] && VersionsOk(s.versions, s.clock)
    && s.history == Before(s.versions, |s.versions|)
  }

  lemma {:induction false} BeforeSame(vs: seq<Version>, vs': seq<Version>, k: nat)
    requires k <= |vs| && k <= |vs'| && Stampable(vs) && Stampable(vs')
    requires forall i | 0 <= i < k :: vs[i].arr == vs'[i].arr && vs[i].stamps == vs'[i].stamps
    ensures Before(vs, k) == Before(vs', k)
  {
    if k > 0 {
      BeforeSame(vs, vs', k - 1);
      assert Logged(vs[k - 1]) == Logged(vs'[k - 1]);
    }
  }

  lemma {:induction false} MapOfConcat(a: seq<Stamped>, b: seq<Stamped>)
    ensures MapOf(a + b) == ReplayFrom(MapOf(a), Records(Updates(b)))
  {
    assert Records(Updates(a + b)) == Records(Updates(a)) + Records(Updates(b));
    ReplayConcat(map[], Records(Updates(a)), Records(Updates(b)));
  }

  /** The live map of a version is the map of everything logged up to and including it. */
  lemma {:induction false} LiveIsHistory(s: Store, k: nat)
    requires Stampable(s.versions) && k < |s.versions| && VersionOk(s.versions, s.clock, k)
    ensures s.versions[k].arr.Live() == MapOf(Before(s.versions, k + 1))
  {
    var v := s.versions[k];
    MapOfConcat(Before(s.versions, k), Logged(v));
    assert Updates(Logged(v)) == v.arr.log;
  }

  lemma {:induction false} FirstOk(vs: seq<Version>, clock: nat)
    requires vs == [NewVersion(EMPTY, 0)]
    ensures VersionsOk(vs, clock) && Before(vs, 1) == []
  {
    var v := vs[0];
    assert Records([]) == [];
    assert Logged(v) == [];
    assert Before(vs, 0) == [] && Before(vs, 1) == Before(vs, 0) + Logged(v);
    assert Updates([]) == [];
    assert VersionOk(vs, clock, 0);
  }

  lemma {:induction false} InitialInv(s: Store)
    requires Initial(s)
    ensures Inv(s)
  {
    FirstOk(s.versions, s.clock);
  }

  lemma {:induction false} TickInv(s: Store, rate: real)
    requires Inv(s) && rate >= 1.0
    ensures Inv(Perform(s, Tick, rate))
  {
    var s' := Perform(s, Tick, rate);
    forall k | 0 <= k < |s.versions| ensures VersionOk(s'.versions, s'.clock, k) {
      assert VersionOk(s.versions, s.clock, k);
    }
  }

  lemma {:induction false} SameLogsOk(s: Store, vs: seq<Version>)
    requires LogsOk(s) && SameLogs(s.versions, vs)
    ensures LogsOk(s.(versions := vs))
  {
    forall i | 0 <= i < |vs| ensures VersionOk(vs, s.clock, i) {
      assert VersionOk(s.versions, s.clock, i);
      BeforeSame(s.versions, vs, i);
    }
    BeforeSame(s.versions, vs, |vs|);
  }

  lemma {:induction false} PinnedLives(vs: seq<Version>, k: nat)
    requires LivesOk(vs) && k < |vs| && vs[k].held
    ensures SameLogs(vs, Pinned(vs, k)) && LivesOk(Pinned(vs, k))
  {
    forall i | 0 <= i < |vs| ensures LifeOk(Pinned(vs, k), i) {
      assert LifeOk(vs, i);
    }
  }

  lemma {:induction false} UnpinnedLives(vs: seq<Version>, k: nat)
    requires LivesOk(vs) && k < |vs| && vs[k].readers > 0
    ensures SameLogs(vs, Unpinned(vs, k)) && LivesOk(Unpinned(vs, k))
  {
    forall i | 0 <= i < |vs| ensures LifeOk(Unpinned(vs, k), i) {
      assert LifeOk(vs, i);
    }
  }

  lemma {:induction false} ReclaimedLives(vs: seq<Version>, v: Version)
    requires vs != [] && LivesOk(vs) && v.held && v.linked
    ensures LivesOk(Reclaimed(vs) + [v])
  {
    forall i | 0 <= i <= |vs| ensures LifeOk(Reclaimed(vs) + [v], i) {
      if i < |vs| {
        assert LifeOk(vs, i);
      }
    }
  }

  lemma {:induction false} ReadInv(s: Store, a: Action, rate: real)
    requires Inv(s) && Enabled(s, a) && (a.BeginRead? || a.EndRead?) && rate >= 1.0
    ensures Inv(Perform(s, a, rate)) && SameLogs(s.versions, Perform(s, a, rate).versions)
  {
    if a.EndRead? {
      UnpinnedLives(s.versions, a.k);
    } else {
      var k := Walk(s.versions, |s.versions|, a.t);
      if k.Some? {
        PinnedLives(s.versions, k.value);
      }
    }
    SameLogsOk(s, Perform(s, a, rate).versions);
  }

  lemma {:induction false} ExpandLast(arr: ArrayState, rate: real)
    requires rate >= 1.0 && arr.Ok()
    ensures Expanded(arr, rate).Ok() && Expanded(arr, rate).log == [] && Replay(Expanded(arr, rate).snap) == arr.Live()
  {
    ExpandKeeps(arr, rate);
    assert Records([]) == [];
  }

  lemma {:induction false} NewVersionInv(s: Store, s': Store, v: Version)
    requires LogsOk(s) && s' == Store(s.versions + [v], s.clock + 1, s.history)
    requires v.arr.Ok() && v.stamps == [] && v.arr.log == [] && v.snapTs == s.clock
    requires Replay(v.arr.snap) == MapOf(s.history)
    ensures LogsOk(s')
  {
    var n := |s.versions|;
    BeforeSame(s.versions, s'.versions, n);
    forall i | 0 <= i < n ensures VersionOk(s'.versions, s'.clock, i) {
      assert VersionOk(s.versions, s.clock, i);
      BeforeSame(s.versions, s'.versions, i);
    }
    assert VersionOk(s'.versions, s'.clock, n);
    assert Logged(v) == [];
    assert Before(s'.versions, n + 1) == Before(s'.versions, n) + Logged(v);
  }

  lemma {:induction false} ReplacedInv(s: Store, vs: seq<Version>, v: Version)
    requires Inv(s) && SameLogs(s.versions, vs) && LivesOk(vs + [v])
    requires v.arr.Ok() && v.stamps == [] && v.arr.log == [] && v.snapTs == s.clock
    requires Replay(v.arr.snap) == MapOf(s.history)
    ensures Inv(Store(vs + [v], s.clock + 1, s.history))
  {
    SameLogsOk(s, vs);
    NewVersionInv(s.(versions := vs), Store(vs + [v], s.clock + 1, s.history), v);
  }

  lemma {:induction false} ExpandInv(s: Store, rate: real)
    requires Inv(s) && Enabled(s, Expand) && rate >= 1.0
    ensures Inv(Perform(s, Expand, rate))
  {
    var n := |s.versions|;
    var arr := s.versions[n - 1].arr;
    var v := NewVersion(Expanded(arr, rate), s.clock);
    assert VersionOk(s.versions, s.clock, n - 1);
    LiveIsHistory(s, n - 1);
    ExpandLast(arr, rate);
    ReclaimedLives(s.versions, v);
    ReplacedInv(s, Reclaimed(s.versions), v);
  }

  lemma {:induction false} AppendLast(v: Version, u: Update, at: int, before: seq<Stamped>)
    requires v.arr.Ok() && v.arr.Used() < v.arr.cap && |v.stamps| == |v.arr.log|
    requires StampsOk(v.stamps, v.snapTs, at) && Replay(v.arr.snap) == MapOf(before)
    requires Legal(MapOf(before + Logged(v)), u)
    ensures Appended(v, u, at).arr.Ok() && StampsOk(Appended(v, u, at).stamps, v.snapTs, at + 1)
    ensures Logged(Appended(v, u, at)) == Logged(v) + [Stamped(u, at)]
  {
    LoggedAppend(v, u, at);
    AppendWellFormed(v, u, before);
    AppendStamp(v.stamps, v.snapTs, at);
  }

  lemma {:induction false} LoggedAppend(v: Version, u: Update, at: int)
    requires |v.stamps| == |v.arr.log|
    ensures Logged(Appended(v, u, at)) == Logged(v) + [Stamped(u, at)]
  {
  }

  lemma {:induction false} AppendWellFormed(v: Version, u: Update, before: seq<Stamped>)
    requires |v.stamps| == |v.arr.log| && Replay(v.arr.snap) == MapOf(before)
    requires WellFormed(Replay(v.arr.snap), v.arr.log) && Legal(MapOf(before + Logged(v)), u)
    ensures WellFormed(Replay(v.arr.snap), v.arr.log + [u])
  {
    MapOfConcat(before, Logged(v));
    assert Updates(Logged(v)) == v.arr.log;
    WellFormedAppend(Replay(v.arr.snap), v.arr.log, u);
  }

  lemma {:induction false} AppendStamp(stamps: seq<int>, lo: int, at: int)
    requires StampsOk(stamps, lo, at)
    ensures StampsOk(stamps + [at], lo, at + 1)
  {
  }

  /** Version `n`, the last one, has grown by one record to `v'`. */
  ghost predicate Grown(vs: seq<Version>, vs': seq<Version>, v': Version, last: Stamped)
    requires Stampable(vs)
  {
    && vs != [] && vs' == vs[|vs| - 1 := v'] && |v'.stamps| == |v'.arr.log|
    && var v := vs[|vs| - 1];
       v'.snapTs == v.snapTs && v'.arr.snap == v.arr.snap && Logged(v') == Logged(v) + [last]
  }

  lemma {:induction false} GrownOlder(vs: seq<Version>, vs': seq<Version>, v': Version, last: Stamped, clock: nat, i: nat)
    requires Stampable(vs) && Stampable(vs') && Grown(vs, vs', v', last) && i < |vs| - 1 && VersionOk(vs, clock, i)
    ensures VersionOk(vs', clock + 1, i)
  {
    BeforeSame(vs, vs', i);
  }

  lemma {:induction false} GrownBefore(vs: seq<Version>, vs': seq<Version>, v': Version, last: Stamped)
    requires Stampable(vs) && Stampable(vs') && Grown(vs, vs', v', last)
    ensures Before(vs', |vs| - 1) == Before(vs, |vs| - 1) && Before(vs', |vs|) == Before(vs, |vs|) + [last]
  {
    BeforeSame(vs, vs', |vs| - 1);
  }

  lemma {:induction false} GrownLast(vs: seq<Version>, vs': seq<Version>, v': Version, last: Stamped, clock: nat)
    requires Stampable(vs) && Stampable(vs') && Grown(vs, vs', v', last) && VersionOk(vs, clock, |vs| - 1)
    requires v'.arr.Ok() && StampsOk(v'.stamps, v'.snapTs, clock + 1)
    ensures VersionOk(vs', clock + 1, |vs| - 1) && Before(vs', |vs|) == Before(vs, |vs|) + [last]
  {
    GrownBefore(vs, vs', v', last);
  }

  lemma {:induction false} GrownStampable(vs: seq<Version>, vs': seq<Version>, v': Version, last: Stamped)
    requires Stampable(vs) && Grown(vs, vs', v', last)
    ensures Stampable(vs')
  {
  }

  lemma {:induction false} GrownVersions(vs: seq<Version>, vs': seq<Version>, v': Version, last: Stamped, clock: nat)
    requires VersionsOk(vs, clock) && Grown(vs, vs', v', last)
    requires v'.arr.Ok() && StampsOk(v'.stamps, v'.snapTs, clock + 1)
    ensures VersionsOk(vs', clock + 1) && Before(vs', |vs'|) == Before(vs, |vs|) + [last]
  {
    GrownStampable(vs, vs', v', last);
    assert VersionOk(vs, clock, |vs| - 1);
    GrownLast(vs, vs', v', last, clock);
    var later := clock + 1;
    forall i | 0 <= i < |vs'| ensures VersionOk(vs', later, i) {
      if i < |vs| - 1 {
        assert VersionOk(vs, clock, i);
        GrownOlder(vs, vs', v', last, clock, i);
      }
    }
  }

  lemma {:induction false} GrownLives(vs: seq<Version>, v': Version)
    requires vs != [] && LivesOk(vs)
    requires var v := vs[|vs| - 1]; v'.readers == v.readers && v'.held == v.held && v'.linked == v.linked
    ensures LivesOk(vs[|vs| - 1 := v'])
  {
    var vs' := vs[|vs| - 1 := v'];
    forall i | 0 <= i < |vs'| ensures LifeOk(vs', i) {
      assert LifeOk(vs, i);
    }
  }

  lemma {:induction false} AppendInv(s: Store, u: Update, rate: real)
    requires Inv(s) && Enabled(s, Append(u)) && rate >= 1.0
    ensures Inv(Perform(s, Append(u), rate))
  {
    var n := |s.versions| - 1;
    assert VersionOk(s.versions, s.clock, n);
    var v' := Appended(s.versions[n], u, s.clock);
    AppendLast(s.versions[n], u, s.clock, Before(s.versions, n));
    GrownVersions(s.versions, s.versions[n := v'], v', Stamped(u, s.clock), s.clock);
    GrownLives(s.versions, v');
  }

  ghost predicate Next(s: Store, s': Store, rate: real)
    requires rate >= 1.0
  {
    exists a :: Enabled(s, a) && s' == Perform(s, a, rate)
  }

  lemma {:induction false} NextInv(s: Store, s': Store, rate: real)
    requires rate >= 1.0 && Inv(s) && Next(s, s', rate)
    ensures Inv(s')
  {
    var a :| Enabled(s, a) && s' == Perform(s, a, rate);
    match a {
      case Tick => TickInv(s, rate);
      case Append(u) => AppendInv(s, u, rate);
      case Expand => ExpandInv(s, rate);
      case BeginRead(_) => ReadInv(s, a, rate);
      case EndRead(_) => ReadInv(s, a, rate);
    }
  }

  ghost predicate StepAt(run: seq<Store>, k: nat, rate: real)
    requires k < |run| - 1 && rate >= 1.0
  {
    Next(run[k], run[k + 1], rate)
  }

  ghost predicate IsRun(run: seq<Store>, rate: real) {
    && rate >= 1.0 && run != [] && Initial(run[0])
    && forall k {:trigger StepAt(run, k, rate)} | 0 <= k < |run| - 1 :: StepAt(run, k, rate)
  }

  lemma {:induction false} RunInv(run: seq<Store>, rate: real, k: nat)
    requires IsRun(run, rate) && k < |run|
    ensures Inv(run[k])
  {
    if k == 0 {
      InitialInv(run[0]);
    } else {
      RunInv(run, rate, k - 1);
      assert StepAt(run, k - 1, rate);
      NextInv(run[k - 1], run[k], rate);
    }
  }

  // ----- What a read returns -----

  lemma {:induction false} UpToConcat(a: seq<Stamped>, b: seq<Stamped>, t: int)
    ensures UpTo(a + b, t) == UpTo(a, t) + UpTo(b, t)
  {
    if b == [] {
      assert a + b == a;
    } else {
      assert (a + b)[..|a + b| - 1] == a + b[..|b| - 1];
      UpToConcat(a, b[..|b| - 1], t);
    }
  }

  lemma {:induction false} UpToAll(h: seq<Stamped>, t: int)
    requires forall k | 0 <= k < |h| :: h[k].at <= t
    ensures UpTo(h, t) == h
  {
    if h != [] {
      UpToAll(h[..|h| - 1], t);
    }
  }

  lemma {:induction false} UpToNone(h: seq<Stamped>, t: int)
    requires forall k | 0 <= k < |h| :: h[k].at > t
    ensures UpTo(h, t) == []
  {
    if h != [] {
      UpToNone(h[..|h| - 1], t);
    }
  }

  /** With ascending stamps the backward search for the newest visible record finds exactly the visible ones. */
  lemma {:induction false} VisibleIsUpTo(h: seq<Stamped>, stamps: seq<int>, t: int)
    requires |h| == |stamps| && forall k | 0 <= k < |h| :: h[k].at == stamps[k]
    requires forall i, j | 0 <= i < j < |stamps| :: stamps[i] < stamps[j]
    ensures UpTo(h, t) == h[..VisibleCount(stamps, t)]
  {
    if h != [] {
      var n := |h| - 1;
      if stamps[n] <= t {
        UpToAll(h, t);
      } else {
        VisibleIsUpTo(h[..n], stamps[..n], t);
        assert h[..n][..VisibleCount(stamps[..n], t)] == h[..VisibleCount(stamps[..n], t)];
      }
    }
  }

  /** Snapshot stamps ascend along the chain. */
  lemma {:induction false} SnapshotsAscend(s: Store, i: nat, j: nat)
    requires Inv(s) && i <= j < |s.versions|
    ensures s.versions[i].snapTs <= s.versions[j].snapTs
    decreases j - i
  {
    if i < j {
      assert VersionOk(s.versions, s.clock, i);
      SnapshotsAscend(s, i + 1, j);
    }
  }

  /** Everything logged before version `k` is stamped below its snapshot. */
  lemma {:induction false} BeforeIsOlder(s: Store, k: nat, i: nat)
    requires Inv(s) && k < |s.versions| && i <= k
    ensures forall x | 0 <= x < |Before(s.versions, i)| :: Before(s.versions, i)[x].at < s.versions[k].snapTs
  {
    if i > 0 {
      BeforeIsOlder(s, k, i - 1);
      assert VersionOk(s.versions, s.clock, i - 1);
      SnapshotsAscend(s, i, k);
    }
  }

  lemma {:induction false} LoggedIsNewer(s: Store, k: nat, i: nat)
    requires Inv(s) && k <= i < |s.versions|
    ensures forall x | 0 <= x < |Logged(s.versions[i])| :: Logged(s.versions[i])[x].at >= s.versions[k].snapTs
  {
    assert VersionOk(s.versions, s.clock, i);
    SnapshotsAscend(s, k, i);
  }

  /** Everything logged after version `k` is stamped no lower than the next snapshot. */
  lemma {:induction false} AfterIsNewer(s: Store, k: nat, i: nat) returns (rest: seq<Stamped>)
    requires Inv(s) && k < i <= |s.versions|
    ensures Before(s.versions, i) == Before(s.versions, k + 1) + rest
    ensures forall x | 0 <= x < |rest| :: k + 1 < |s.versions| && rest[x].at >= s.versions[k + 1].snapTs
  {
    if i == k + 1 {
      rest := [];
    } else {
      var r := AfterIsNewer(s, k, i - 1);
      var last := Logged(s.versions[i - 1]);
      rest := r + last;
      LoggedIsNewer(s, k + 1, i - 1);
      assert Before(s.versions, i) == Before(s.versions, i - 1) + last;
    }
  }

  function Min(a: int, b: int): int {
    if a <= b then a else b
  }

  lemma {:induction false} VisibleCut(stamps: seq<int>, hi: int, t: int)
    requires forall i | 0 <= i < |stamps| :: stamps[i] < hi
    ensures VisibleCount(stamps, Min(t, hi - 1)) == VisibleCount(stamps, t)
  {
    if stamps != [] {
      VisibleCut(stamps[..|stamps| - 1], hi, t);
    }
  }

  /** Cutting the history at `b` between two snapshots leaves the older versions whole and the newer ones out. */
  lemma {:induction false} CutInside(s: Store, k: nat, b: int)
    requires Inv(s) && k < |s.versions| && s.versions[k].snapTs <= b + 1 && b < Until(s.versions, s.clock, k)
    ensures UpTo(s.history, b) == Before(s.versions, k) + UpTo(Logged(s.versions[k]), b)
  {
    var v := s.versions[k];
    var earlier := Before(s.versions, k);
    BeforeIsOlder(s, k, k);
    UpToAll(earlier, b);
    var rest := AfterIsNewer(s, k, |s.versions|);
    UpToNone(rest, b);
    UpToConcat(earlier + Logged(v), rest, b);
    UpToConcat(earlier, Logged(v), b);
  }

  /** The part of the history that version `k` shows at timestamp `t`. */
  lemma {:induction false} ShownByVersion(s: Store, k: nat, t: int)
    requires Inv(s) && k < |s.versions| && s.versions[k].snapTs <= t < s.clock
    ensures var v := s.versions[k];
            UpTo(s.history, Min(t, Until(s.versions, s.clock, k) - 1))
            == Before(s.versions, k) + Logged(v)[..VisibleCount(v.stamps, t)]
  {
    var v, hi := s.versions[k], Until(s.versions, s.clock, k);
    var b := Min(t, hi - 1);
    assert VersionOk(s.versions, s.clock, k);
    CutInside(s, k, b);
    VisibleIsUpTo(Logged(v), v.stamps, b);
    VisibleCut(v.stamps, hi, t);
  }

  lemma {:induction false} EdgesPrefix(v: Version, n: nat)
    requires n <= |v.arr.log|
    ensures v.Edges()[..|v.arr.snap| + n] == v.arr.snap + Records(v.arr.log[..n])
  {
  }

  /** A read of one version continues its snapshot with the visible part of its log. */
  lemma {:induction false} VersionShows(v: Version, t: int, n: nat)
    requires v.arr.Ok() && |v.stamps| == |v.arr.log| && n == VisibleCount(v.stamps, t)
    ensures var r := ReadVersion(v, t);
            IsSnapshot(r) && Replay(r) == ReplayFrom(Replay(v.arr.snap), Records(v.arr.log[..n]))
  {
    var shown := |v.arr.snap| + n;
    ReadIsReplay(v.Edges(), |v.arr.snap|, shown);
    EdgesPrefix(v, n);
    ReplayConcat(map[], v.arr.snap, Records(v.arr.log[..n]));
  }

  /** What reading version `k` replays to. */
  lemma {:induction false} VersionReplays(s: Store, k: nat, t: int)
    requires Inv(s) && k < |s.versions| && s.versions[k].snapTs <= t < s.clock
    ensures var r := ReadVersion(s.versions[k], t);
            IsSnapshot(r) && Replay(r) == MapOf(UpTo(s.history, Min(t, Until(s.versions, s.clock, k) - 1)))
  {
    var v := s.versions[k];
    var n := VisibleCount(v.stamps, t);
    assert VersionOk(s.versions, s.clock, k);
    VersionShows(v, t, n);
    ShownByVersion(s, k, t);
    PrefixMap(Before(s.versions, k), v, n);
  }

  lemma {:induction false} PrefixMap(before: seq<Stamped>, v: Version, n: nat)
    requires |v.stamps| == |v.arr.log| && n <= |v.arr.log| && Replay(v.arr.snap) == MapOf(before)
    ensures MapOf(before + Logged(v)[..n]) == ReplayFrom(Replay(v.arr.snap), Records(v.arr.log[..n]))
  {
    MapOfConcat(before, Logged(v)[..n]);
    assert Updates(Logged(v)[..n]) == v.arr.log[..n];
  }

  /** Every read of every reachable store at a timestamp already drawn: it fails exactly if no retained version is old
      enough, and otherwise lists each live edge of the history up to `t`, cut off where the version it ended at stopped
      taking records, once with its newest weight. */
  lemma {:induction false} ReadCharacterized(run: seq<Store>, rate: real, i: nat, t: int)
    requires IsRun(run, rate) && i < |run| && t < run[i].clock
    ensures Stampable(run[i].versions)
    ensures Read(run[i], t).None? <==>
            forall k | 0 <= k < |run[i].versions| :: !run[i].versions[k].held || run[i].versions[k].snapTs > t
    ensures var s := run[i];
            var k := Walk(s.versions, |s.versions|, t);
            k.Some? ==>
              && Read(s, t).Some? && IsSnapshot(Read(s, t).value)
              && Replay(Read(s, t).value) == MapOf(UpTo(s.history, Min(t, Until(s.versions, s.clock, k.value) - 1)))
  {
    RunInv(run, rate, i);
    var s := run[i];
    var k := Walk(s.versions, |s.versions|, t);
    if k.Some? {
      VersionReplays(s, k.value, t);
    }
  }

  /** Version `j` covers `t`: it is the newest whose snapshot is not too new, retained or not. */
  predicate Covers(vs: seq<Version>, j: nat, t: int) {
    j < |vs| && vs[j].snapTs <= t && (j + 1 < |vs| ==> t < vs[j + 1].snapTs)
  }

  lemma {:induction false} WalkFindsCover(s: Store, j: nat, t: int)
    requires Inv(s) && Covers(s.versions, j, t) && s.versions[j].held
    ensures Walk(s.versions, |s.versions|, t) == Some(j)
  {
    var k := Walk(s.versions, |s.versions|, t);
    if k.Some? && k.value > j {
      SnapshotsAscend(s, j + 1, k.value);
    }
  }

  lemma {:induction false} CoverCut(s: Store, j: nat, t: int)
    requires Covers(s.versions, j, t) && t < s.clock
    ensures Min(t, Until(s.versions, s.clock, j) - 1) == t
  {
  }

  /** While the version covering `t` is retained, a read at `t` returns exactly the updates stamped at most `t`. */
  lemma {:induction false} ReadIsExact(run: seq<Store>, rate: real, i: nat, t: int, j: nat)
    requires IsRun(run, rate) && i < |run| && t < run[i].clock
    requires Covers(run[i].versions, j, t) && run[i].versions[j].held
    ensures Stampable(run[i].versions) && Read(run[i], t).Some? && IsSnapshot(Read(run[i], t).value)
    ensures Replay(Read(run[i], t).value) == MapOf(UpTo(run[i].history, t))
  {
    RunInv(run, rate, i);
    WalkFindsCover(run[i], j, t);
    CoverCut(run[i], j, t);
    VersionReplays(run[i], j, t);
  }

  /** The updates stamped from `lo` to `hi`. */
  function Between(h: seq<Stamped>, lo: int, hi: int): seq<Stamped> {
    if h == [] then []
    else Between(h[..|h| - 1], lo, hi) + (if lo <= h[|h| - 1].at <= hi then [h[|h| - 1]] else [])
  }

  lemma {:induction false} BetweenEmpty(h: seq<Stamped>, lo: int, hi: int)
    ensures Between(h, lo, hi) == [] <==> forall x | 0 <= x < |h| :: !(lo <= h[x].at <= hi)
  {
    if h != [] {
      var init := h[..|h| - 1];
      BetweenEmpty(init, lo, hi);
      assert forall x | 0 <= x < |init| :: init[x] == h[x];
      assert lo <= h[|h| - 1].at <= hi ==> !(forall x | 0 <= x < |h| :: !(lo <= h[x].at <= hi));
    }
  }

  ghost predicate Ascends(h: seq<Stamped>) {
    forall x, y | 0 <= x < y < |h| :: h[x].at < h[y].at
  }

  /** Cutting an ascending history twice. */
  lemma {:induction false} CutTwice(h: seq<Stamped>, b: int, t: int)
    requires Ascends(h) && b <= t
    ensures UpTo(h, t) == UpTo(h, b) + Between(h, b + 1, t)
  {
    if h != [] {
      var init := h[..|h| - 1];
      CutTwice(init, b, t);
      if h[|h| - 1].at <= b {
        BetweenEmpty(init, b + 1, t);
        assert UpTo(h, t) == UpTo(init, t) + [h[|h| - 1]] && UpTo(h, b) == UpTo(init, b) + [h[|h| - 1]];
      } else {
        assert UpTo(h, b) == UpTo(init, b);
      }
    }
  }

  lemma {:induction false} BeforeAscends(s: Store, i: nat)
    requires Inv(s) && i <= |s.versions|
    ensures Ascends(Before(s.versions, i))
  {
    if i > 0 {
      BeforeAscends(s, i - 1);
      BeforeIsOlder(s, i - 1, i - 1);
      assert VersionOk(s.versions, s.clock, i - 1);
    }
  }

  /** Replaying more records changes nothing exactly if each destination they touch ends as it was. */
  lemma {:induction false} ReplayUnchanged(m: map<int, real>, more: seq<Edge>)
    ensures ReplayFrom(m, more) == m <==>
            forall d {:trigger Ends(m, more, d)} | d in Touched(more) :: Ends(m, more, d)
  {
    forall d ensures d in Touched(more) ==> (Ends(m, more, d) <==> SameEntry(m, ReplayFrom(m, more), d)) {
      ReplayPointwise(m, more, d);
    }
    forall d ensures d !in Touched(more) ==> SameEntry(m, ReplayFrom(m, more), d) {
      ReplayPointwise(m, more, d);
    }
    if forall d {:trigger Ends(m, more, d)} | d in Touched(more) :: Ends(m, more, d) {
      var m' := ReplayFrom(m, more);
      forall d ensures (d in m <==> d in m') && (d in m ==> m[d] == m'[d]) {
        assert SameEntry(m, m', d) by {
          if d in Touched(more) {
            assert Ends(m, more, d);
          }
        }
      }
      assert m' == m;
    }
  }

  ghost predicate SameEntry(m: map<int, real>, m': map<int, real>, d: int) {
    (d in m <==> d in m') && (d in m ==> m[d] == m'[d])
  }

  /** The records `more` leave destination `d` with the entry it has in `m`. */
  ghost predicate Ends(m: map<int, real>, more: seq<Edge>, d: int) {
    SameEntry(m, Replay(more), d)
  }

  /** The updates a read at `t` replays. */
  ghost function Shown(s: Store, t: int): Option<seq<Stamped>>
    requires Stampable(s.versions)
  {
    match Walk(s.versions, |s.versions|, t)
    case None => None
    case Some(k) => Some(Before(s.versions, k) + Logged(s.versions[k])[..VisibleCount(s.versions[k].stamps, t)])
  }

  /** The updates stamped at most `t` that a read at `t` ending at version `k` cannot see: those stamped after `k` had
      stopped taking records. */
  function Missed(s: Store, k: nat, t: int): seq<Stamped>
    requires k < |s.versions|
  {
    Between(s.history, Until(s.versions, s.clock, k), t)
  }

  lemma {:induction false} ShownAndMissed(s: Store, k: nat, t: int)
    requires Inv(s) && t < s.clock && Walk(s.versions, |s.versions|, t) == Some(k)
    ensures k < |s.versions| && Shown(s, t).Some? && UpTo(s.history, t) == Shown(s, t).value + Missed(s, k, t)
    ensures IsSnapshot(ReadVersion(s.versions[k], t)) && Replay(ReadVersion(s.versions[k], t)) == MapOf(Shown(s, t).value)
  {
    var b := Min(t, Until(s.versions, s.clock, k) - 1);
    ShownByVersion(s, k, t);
    VersionReplays(s, k, t);
    BeforeAscends(s, |s.versions|);
    CutTwice(s.history, b, t);
    if b == t {
      BetweenEmpty(s.history, b + 1, t);
      BetweenEmpty(s.history, Until(s.versions, s.clock, k), t);
    }
  }

  ghost predicate CoverHeld(vs: seq<Version>, t: int) {
    exists j {:trigger Covers(vs, j, t)} :: 0 <= j < |vs| && Covers(vs, j, t) && vs[j].held
  }

  /** The read ends at a version after which no update was stamped up to `t`. */
  ghost predicate NothingMissed(s: Store, t: int) {
    var k := Walk(s.versions, |s.versions|, t);
    k.Some? && forall x | 0 <= x < |s.history| :: !(Until(s.versions, s.clock, k.value) <= s.history[x].at <= t)
  }

  /** The read ends at a version after which every destination updated up to `t` ended as the version has it. */
  ghost predicate NothingChanged(s: Store, t: int)
    requires Stampable(s.versions)
  {
    var k := Walk(s.versions, |s.versions|, t);
    k.Some? &&
      var missed := Records(Updates(Missed(s, k.value, t)));
      forall d {:trigger Ends(MapOf(Shown(s, t).value), missed, d)} | d in Touched(missed) ::
        Ends(MapOf(Shown(s, t).value), missed, d)
  }

  lemma {:induction false} CoverMissesNothing(s: Store, t: int)
    requires Inv(s) && t < s.clock && CoverHeld(s.versions, t)
    ensures NothingMissed(s, t)
  {
    var j :| 0 <= j < |s.versions| && Covers(s.versions, j, t) && s.versions[j].held;
    WalkFindsCover(s, j, t);
  }

  lemma {:induction false} AppendNothing(a: seq<Stamped>, b: seq<Stamped>)
    ensures a == a + b <==> b == []
  {
    assert |a + b| == |a| + |b|;
  }

  /** Exactly when a read is exact, for every reachable store and every timestamp already drawn. It shows the updates
      stamped at most `t`, no more and no less, if and only if the version covering `t` still has its buffer or nothing
      was stamped between the end of the version it falls back to and `t`. It lists their latest-wins map if and only if
      each destination updated in between ended with the entry that version already had. */
  lemma {:induction false} ReadIsExactIff(run: seq<Store>, rate: real, i: nat, t: int)
    requires IsRun(run, rate) && i < |run| && t < run[i].clock
    ensures Stampable(run[i].versions)
    ensures var s := run[i]; Read(s, t).Some? ==>
              && Shown(s, t).Some? && IsSnapshot(Read(s, t).value) && Replay(Read(s, t).value) == MapOf(Shown(s, t).value)
    ensures var s := run[i]; Shown(s, t) == Some(UpTo(s.history, t)) <==> CoverHeld(s.versions, t) || NothingMissed(s, t)
    ensures var s := run[i]; Read(s, t).Some? && Replay(Read(s, t).value) == MapOf(UpTo(s.history, t)) <==> NothingChanged(s, t)
  {
    RunInv(run, rate, i);
    var s := run[i];
    var w := Walk(s.versions, |s.versions|, t);
    if CoverHeld(s.versions, t) {
      CoverMissesNothing(s, t);
    }
    if w.Some? {
      var shown, missed := Shown(s, t).value, Missed(s, w.value, t);
      ShownAndMissed(s, w.value, t);
      BetweenEmpty(s.history, Until(s.versions, s.clock, w.value), t);
      AppendNothing(shown, missed);
      MapOfConcat(shown, missed);
      ReplayUnchanged(MapOf(shown), Records(Updates(missed)));
    }
  }

  /** A version has its buffer exactly while it is current or read. */
  lemma {:induction false} HeldIffRead(run: seq<Store>, rate: real, i: nat, k: nat)
    requires IsRun(run, rate) && i < |run| && k < |run[i].versions|
    ensures run[i].versions[k].held <==> k == |run[i].versions| - 1 || run[i].versions[k].readers > 0
  {
    RunInv(run, rate, i);
    assert LifeOk(run[i].versions, k);
  }

  /** Records stamped later than `t` do not change what a version shows at `t`. */
  lemma {:induction false} AppendInvisible(v: Version, u: Update, at: int, t: int)
    requires |v.stamps| == |v.arr.log| && t < at
    ensures ReadVersion(Appended(v, u, at), t) == ReadVersion(v, t)
  {
    var v' := Appended(v, u, at);
    assert v'.stamps[..|v'.stamps| - 1] == v.stamps;
    var n := |v.arr.snap| + VisibleCount(v.stamps, t);
    assert v'.Edges()[..n] == v.Edges()[..n];
  }

  ghost predicate SameRead(vs: seq<Version>, vs': seq<Version>, t: int, j: nat)
    requires Stampable(vs) && Stampable(vs') && j < |vs| && j < |vs'|
  {
    && ReadVersion(vs'[j], t) == ReadVersion(vs[j], t)
    && (vs'[j].held ==> vs[j].held)
  }

  /** The contents and cover of version `j` depend on the logs only. */
  lemma {:induction false} LogsKeepReads(vs: seq<Version>, vs': seq<Version>, t: int, j: nat)
    requires SameLogs(vs, vs') && Stampable(vs) && Stampable(vs') && Covers(vs, j, t)
    ensures Covers(vs', j, t) && SameRead(vs, vs', t, j)
  {
    assert vs'[j].Edges() == vs[j].Edges();
  }

  lemma {:induction false} ExpandKeepsReads(vs: seq<Version>, vs': seq<Version>, v: Version, t: int, j: nat)
    requires SameLogs(vs, vs') && Stampable(vs) && Stampable(vs' + [v]) && Covers(vs, j, t) && t < v.snapTs
    ensures Covers(vs' + [v], j, t) && SameRead(vs, vs' + [v], t, j)
  {
    forall k | 0 <= k < |vs'| ensures |vs'[k].stamps| == |vs'[k].arr.log| {
      assert (vs' + [v])[k] == vs'[k];
    }
    LogsKeepReads(vs, vs', t, j);
  }

  lemma {:induction false} AppendKeepsReads(s: Store, u: Update, t: int, j: nat)
    requires s.versions != [] && Stampable(s.versions) && t < s.clock && Covers(s.versions, j, t)
    ensures var vs' := s.versions[|s.versions| - 1 := Appended(s.Current(), u, s.clock)];
            Stampable(vs') && Covers(vs', j, t) && SameRead(s.versions, vs', t, j)
  {
    if j == |s.versions| - 1 {
      AppendInvisible(s.versions[j], u, s.clock, t);
    }
  }

  lemma {:induction false} StepKeepsReads(s: Store, s': Store, rate: real, t: int, j: nat)
    requires rate >= 1.0 && Inv(s) && Stampable(s'.versions) && Next(s, s', rate)
    requires t < s.clock && Covers(s.versions, j, t)
    ensures t < s'.clock && Covers(s'.versions, j, t) && SameRead(s.versions, s'.versions, t, j)
  {
    var a :| Enabled(s, a) && s' == Perform(s, a, rate);
    match a {
      case Tick =>
      case Append(u) => AppendKeepsReads(s, u, t, j);
      case Expand => ExpandKeepsReads(s.versions, Reclaimed(s.versions), s'.versions[|s'.versions| - 1], t, j);
      case BeginRead(_) =>
        ReadInv(s, a, rate);
        LogsKeepReads(s.versions, s'.versions, t, j);
      case EndRead(_) =>
        ReadInv(s, a, rate);
        LogsKeepReads(s.versions, s'.versions, t, j);
    }
  }

  lemma {:induction false} StepsKeepReads(run: seq<Store>, rate: real, i: nat, k: nat, t: int, j: nat)
    requires IsRun(run, rate) && i <= k < |run| && Inv(run[i]) && t < run[i].clock && Covers(run[i].versions, j, t)
    ensures Inv(run[k]) && t < run[k].clock && Covers(run[k].versions, j, t)
    ensures SameRead(run[i].versions, run[k].versions, t, j)
    decreases k
  {
    if k > i {
      StepsKeepReads(run, rate, i, k - 1, t, j);
      RunInv(run, rate, k);
      assert StepAt(run, k - 1, rate);
      StepKeepsReads(run[k - 1], run[k], rate, t, j);
    }
  }

  /** Repeating a read after any further updates, compactions and releases that leave the covering version retained
      returns the same sequence of edges. */
  lemma {:induction false} ReadIsStable(run: seq<Store>, rate: real, i: nat, k: nat, t: int, j: nat)
    requires IsRun(run, rate) && i <= k < |run| && t < run[i].clock
    requires Covers(run[i].versions, j, t) && j < |run[k].versions| && run[k].versions[j].held
    ensures Stampable(run[i].versions) && Stampable(run[k].versions)
    ensures Read(run[i], t).Some? && Read(run[k], t) == Read(run[i], t)
  {
    RunInv(run, rate, i);
    StepsKeepReads(run, rate, i, k, t, j);
    WalkFindsCover(run[i], j, t);
    WalkFindsCover(run[k], j, t);
  }

  // ----- When the covering version is gone -----

  lemma {:induction false} Extend(run: seq<Store>, s: Store, rate: real)
    requires IsRun(run, rate) && Next(run[|run| - 1], s, rate)
    ensures IsRun(run + [s], rate)
  {
    var run' := run + [s];
    forall k | 0 <= k < |run'| - 1 ensures StepAt(run', k, rate) {
      if k < |run| - 1 {
        assert StepAt(run, k, rate);
      }
    }
  }

  lemma {:induction false} ExtendBy(run: seq<Store>, a: Action, rate: real) returns (run': seq<Store>)
    requires IsRun(run, rate) && Enabled(run[|run| - 1], a)
    ensures IsRun(run', rate) && run' == run + [Perform(run[|run| - 1], a, rate)]
  {
    run' := run + [Perform(run[|run| - 1], a, rate)];
    assert Next(run[|run| - 1], run'[|run|], rate);
    Extend(run, run'[|run|], rate);
  }

  lemma {:induction false} StepFixesPast(s: Store, s': Store, rate: real, t: int)
    requires rate >= 1.0 && Next(s, s', rate) && t < s.clock
    ensures s.clock <= s'.clock && UpTo(s'.history, t) == UpTo(s.history, t)
  {
    var a :| Enabled(s, a) && s' == Perform(s, a, rate);
    assert a.Append? ==> s'.history[..|s'.history| - 1] == s.history;
  }

  /** Later steps draw later stamps. */
  lemma {:induction false} PastIsFixed(run: seq<Store>, rate: real, i: nat, k: nat, t: int)
    requires IsRun(run, rate) && i <= k < |run| && t < run[i].clock
    ensures run[i].clock <= run[k].clock && UpTo(run[k].history, t) == UpTo(run[i].history, t)
    decreases k
  {
    if k > i {
      PastIsFixed(run, rate, i, k - 1, t);
      assert StepAt(run, k - 1, rate);
      StepFixesPast(run[k - 1], run[k], rate, t);
    }
  }

  lemma {:induction false} HistoryIsPast(s: Store)
    requires Inv(s)
    ensures UpTo(s.history, s.clock - 1) == s.history
  {
    var k := |s.versions| - 1;
    assert VersionOk(s.versions, s.clock, k);
    BeforeIsOlder(s, k, k);
    UpToAll(s.history, s.clock - 1);
  }

  lemma {:induction false} LastWins(h: seq<Stamped>, d: int, w: real)
    requires h != [] && h[|h| - 1].u == UpdateEdge(d, w) && w != 0.0
    ensures d in MapOf(h) && MapOf(h)[d] == w
  {
    var us := Updates(h);
    assert us == us[..|us| - 1] + [UpdateEdge(d, w)];
    ReplayAppend(map[], us[..|us| - 1], UpdateEdge(d, w));
  }

  /** `s'` has more records than `s` in its current version and is otherwise the same. */
  ghost predicate Grew(s: Store, s': Store) {
    && s.versions != [] && |s'.versions| == |s.versions|
    && s'.Current().snapTs == s.Current().snapTs && s'.Current().held == s.Current().held
    && s'.Current().arr.cap == s.Current().arr.cap && s'.Current().readers == s.Current().readers
    && (forall k | 0 <= k < |s.versions| - 1 :: s'.versions[k] == s.versions[k])
  }

  lemma {:induction false} FillOne(s: Store, u: Update, rate: real) returns (m: Store)
    requires rate >= 1.0 && s.versions != [] && u.UpdateEdge? && s.Current().arr.Used() < s.Current().arr.cap
    ensures Enabled(s, Append(u)) && m == Perform(s, Append(u), rate) && Grew(s, m) && m.clock == s.clock + 1
    ensures m.history == s.history + [Stamped(u, s.clock)]
    ensures m.Current().arr.Used() == s.Current().arr.Used() + 1 && m.Current().arr.cap == s.Current().arr.cap
  {
    m := Perform(s, Append(u), rate);
  }

  /** Appending the same update until the current array is full. */
  lemma {:induction false} Fill(run: seq<Store>, u: Update, rate: real) returns (run': seq<Store>)
    requires IsRun(run, rate) && run[|run| - 1].versions != [] && u.UpdateEdge?
    ensures IsRun(run', rate) && run <= run'
    ensures var s, s' := run[|run| - 1], run'[|run'| - 1];
            && Enabled(s', Expand) && Grew(s, s')
            && (s.Current().arr.Used() < s.Current().arr.cap ==> s'.history != [] && s'.history[|s'.history| - 1].u == u)
            && (s.Current().arr.Used() >= s.Current().arr.cap ==> s' == s)
    decreases run[|run| - 1].Current().arr.cap - run[|run| - 1].Current().arr.Used()
  {
    var s := run[|run| - 1];
    run' := run;
    if s.Current().arr.Used() < s.Current().arr.cap {
      var m := FillOne(s, u, rate);
      run' := ExtendBy(run, Append(u), rate);
      run' := Fill(run', u, rate);
    }
  }

  lemma {:induction false} SmallArrayFits(arr: ArrayState, rate: real)
    requires rate >= 1.0 && arr.Used() <= 8
    ensures Expanded(arr, rate).Used() < Expanded(arr, rate).cap
  {
    var edges := arr.snap + Records(arr.log);
    if |edges| != arr.Deg() {
      BackScanLength(edges, |arr.snap|, |edges|, {});
    }
  }

  const FIRST := UpdateEdge(7, 1.0)
  const SECOND := UpdateEdge(7, 2.0)

  /** Eight records of the first weight, and a reader of the version that holds them. */
  lemma {:induction false} FirstRead() returns (run: seq<Store>)
    ensures IsRun(run, 2.0)
    ensures var s := run[|run| - 1];
            && Enabled(s, Expand) && Inv(s) && s.history != [] && s.history[|s.history| - 1].u == FIRST
            && |s.versions| == 1 && s.versions[0].readers == 1 && s.versions[0].snapTs == 0 && s.versions[0].arr.Used() <= 8
  {
    run := Fill([Store([NewVersion(EMPTY, 0)], 0, [])], FIRST, 2.0);
    RunInv(run, 2.0, |run| - 1);
    var s := run[|run| - 1];
    assert VersionOk(s.versions, s.clock, 0);
    assert Walk(s.versions, 1, 0) == Some(0);
    run := ExtendBy(run, BeginRead(0), 2.0);
    RunInv(run, 2.0, |run| - 1);
  }

  lemma {:induction false} ReplaceFirst(s: Store) returns (s': Store)
    requires |s.versions| == 1 && Enabled(s, Expand) && s.versions[0].arr.Used() <= 8 && s.versions[0].readers == 1
    ensures s' == Perform(s, Expand, 2.0) && |s'.versions| == 2 && s'.versions[0] == s.versions[0]
    ensures s'.versions[1].snapTs == s.clock && s'.clock == s.clock + 1 && s'.history == s.history
    ensures s'.versions[1].readers == 0 && s'.Current().arr.Used() < s'.Current().arr.cap
  {
    s' := Perform(s, Expand, 2.0);
    SmallArrayFits(s.Current().arr, 2.0);
  }

  lemma {:induction false} ReplaceAndWrite(s: Store) returns (s2: Store, s3: Store)
    requires |s.versions| == 1 && Enabled(s, Expand) && s.versions[0].arr.Used() <= 8 && s.versions[0].readers == 1
    ensures s2 == Perform(s, Expand, 2.0) && Enabled(s2, Append(SECOND)) && s3 == Perform(s2, Append(SECOND), 2.0)
    ensures s3.clock == s.clock + 2 && s3.history == s.history + [Stamped(SECOND, s.clock + 1)]
    ensures |s3.versions| == 2 && s3.versions[0] == s.versions[0]
    ensures s3.versions[1].snapTs == s.clock && s3.versions[1].readers == 0
  {
    s2 := ReplaceFirst(s);
    s3 := FillOne(s2, SECOND, 2.0);
  }

  /** The second version has the second weight as its first record, stamped one after the snapshot. */
  lemma {:induction false} SecondFirst(run: seq<Store>) returns (run': seq<Store>)
    requires IsRun(run, 2.0)
    requires var s := run[|run| - 1];
             |s.versions| == 1 && Enabled(s, Expand) && s.versions[0].arr.Used() <= 8 && s.versions[0].readers == 1
    ensures IsRun(run', 2.0) && run <= run'
    ensures var s, s' := run[|run| - 1], run'[|run'| - 1];
            && s'.clock == s.clock + 2 && s'.history == s.history + [Stamped(SECOND, s.clock + 1)]
            && |s'.versions| == 2 && s'.versions[0] == s.versions[0]
            && s'.versions[1].snapTs == s.clock && s'.versions[1].readers == 0
  {
    var s2, s3 := ReplaceAndWrite(run[|run| - 1]);
    run' := ExtendBy(run, Expand, 2.0);
    run' := ExtendBy(run', Append(SECOND), 2.0);
  }

  /** Replacing a version nobody reads frees its buffer; the one before stays with its reader. */
  lemma {:induction false} ReplaceSecond(s: Store) returns (s': Store)
    requires |s.versions| == 2 && Enabled(s, Expand) && s.versions[0].readers == 1 && s.versions[1].readers == 0
    ensures s' == Perform(s, Expand, 2.0) && |s'.versions| == 3 && s'.clock == s.clock + 1
    ensures s'.versions[2].snapTs == s.clock
    ensures s'.versions[0] == s.versions[0] && s'.versions[1] == s.versions[1].(held := false)
  {
    s' := Perform(s, Expand, 2.0);
  }

  /** The second version is filled and replaced, which frees its buffer while the first one is read and keeps its own. */
  lemma {:induction false} SecondFreed(run: seq<Store>) returns (run': seq<Store>)
    requires IsRun(run, 2.0) && run[|run| - 1].clock > 0
    requires var s := run[|run| - 1]; |s.versions| == 2 && s.versions[0].readers == 1 && s.versions[1].readers == 0
    ensures IsRun(run', 2.0) && run <= run'
    ensures var s, s' := run[|run| - 1], run'[|run'| - 1];
            && |s'.versions| == 3 && s'.clock > s.clock && s'.versions[0] == s.versions[0]
            && s'.versions[1].snapTs == s.versions[1].snapTs && !s'.versions[1].held && s'.versions[2].snapTs >= s.clock
  {
    run' := Fill(run, FIRST, 2.0);
    PastIsFixed(run', 2.0, |run| - 1, |run'| - 1, 0);
    var s5 := ReplaceSecond(run'[|run'| - 1]);
    run' := ExtendBy(run', Expand, 2.0);
  }

  lemma {:induction false} FirstThenSecond(s1: Store, h: seq<Stamped>, t: int)
    requires Inv(s1) && t == s1.clock + 1 && h == s1.history + [Stamped(SECOND, t)]
    requires s1.history != [] && s1.history[|s1.history| - 1].u == FIRST
    ensures var earlier := MapOf(UpTo(h, t - 2)); 7 in earlier && earlier[7] == 1.0
    ensures var now := MapOf(UpTo(h, t)); 7 in now && now[7] == 2.0
  {
    HistoryIsPast(s1);
    assert h[..|h| - 1] == s1.history;
    LastWins(s1.history, 7, 1.0);
    LastWins(UpTo(h, t), 7, 2.0);
  }

  lemma {:induction false} StaleValues(run: seq<Store>, i: nat, k: nat, t: int)
    requires IsRun(run, 2.0) && i < k < |run| && Inv(run[i]) && t == run[i].clock + 1 && run[k].clock == t + 1
    requires run[i].history != [] && run[i].history[|run[i].history| - 1].u == FIRST
    requires run[k].history == run[i].history + [Stamped(SECOND, t)]
    ensures var earlier := MapOf(UpTo(run[|run| - 1].history, t - 2)); 7 in earlier && earlier[7] == 1.0
    ensures var now := MapOf(UpTo(run[|run| - 1].history, t)); 7 in now && now[7] == 2.0
  {
    PastIsFixed(run, 2.0, k, |run| - 1, t);
    PastIsFixed(run, 2.0, k, |run| - 1, t - 2);
    FirstThenSecond(run[i], run[k].history, t);
  }

  lemma {:induction false} StaleWalk(s: Store, t: int)
    requires Inv(s) && |s.versions| == 3 && s.versions[0].readers == 1 && s.versions[0].snapTs == 0
    requires !s.versions[1].held && 0 <= t && s.versions[1].snapTs == t - 1 && t < s.versions[2].snapTs && t < s.clock
    ensures Read(s, t).Some? && Replay(Read(s, t).value) == MapOf(UpTo(s.history, t - 2))
  {
    assert LifeOk(s.versions, 0);
    assert Walk(s.versions, 3, t) == Some(0);
    VersionReplays(s, 0, t);
  }

  /** Retention matters. While a reader pins version 0 two expansions follow; the second one frees the buffer of version 1,
      which nobody reads. From then on a read at a timestamp version 1 covered succeeds and returns the older weight. */
  lemma {:induction false} StaleRead() returns (run: seq<Store>, s: Store, t: int)
    ensures IsRun(run, 2.0) && s == run[|run| - 1] && 0 <= t < s.clock && Stampable(s.versions)
    ensures Covers(s.versions, 1, t) && !s.versions[1].held && s.versions[0].readers == 1
    ensures Read(s, t).Some? && 7 in Replay(Read(s, t).value) && Replay(Read(s, t).value)[7] == 1.0
    ensures 7 in MapOf(UpTo(s.history, t)) && MapOf(UpTo(s.history, t))[7] == 2.0
  {
    var run1 := FirstRead();
    var run3 := SecondFirst(run1);
    run := SecondFreed(run3);
    s := run[|run| - 1];
    t := run1[|run1| - 1].clock + 1;
    RunInv(run, 2.0, |run| - 1);
    StaleValues(run, |run1| - 1, |run3| - 1, t);
    StaleWalk(s, t);
  }
}
