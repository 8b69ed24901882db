/** A read that has begun keeps what it reads.

    The version a read has pinned stays in memory until that read has ended, whatever other reads, updates and expansions do
    meanwhile, and the read sees the same edges all along. */
module BegunReads {
  import opened EdgeRecords
  import opened Compaction
  import opened EdgeArrays
  import opened VertexLog
  import opened TimeTravel

  ghost predicate Did(run: seq<Store>, acts: seq<TimeTravel.Action>, rate: real, j: nat)
    requires j < |acts| && |run| == |acts| + 1 && rate >= 1.0
  {
    Enabled(run[j], acts[j]) && run[j + 1] == Perform(run[j], acts[j], rate)
  }

  /** A run together with the actions taken. */
  ghost predicate IsTrace(run: seq<Store>, acts: seq<TimeTravel.Action>, rate: real) {
    && rate >= 1.0 && |run| == |acts| + 1 && Initial(run[0])
    && forall j {:trigger Did(run, acts, rate, j)} | 0 <= j < |acts| :: Did(run, acts, rate, j)
  }

  lemma {:induction false} TraceIsRun(run: seq<Store>, acts: seq<TimeTravel.Action>, rate: real)
    requires IsTrace(run, acts, rate)
    ensures IsRun(run, rate)
  {
    forall j | 0 <= j < |run| - 1 ensures StepAt(run, j, rate) {
      assert Did(run, acts, rate, j);
    }
  }

  /** Whether an action begins a read of version `k`. */
  ghost predicate BeginsOn(s: Store, a: TimeTravel.Action, k: nat) {
    a.BeginRead? && Walk(s.versions, |s.versions|, a.t) == Some(k)
  }

  /** Reads of version `k` begun by the actions from `i` up to `m`. */
  ghost function Begins(run: seq<Store>, acts: seq<TimeTravel.Action>, k: nat, i: nat, m: nat): nat
    requires i <= m <= |acts| && |run| == |acts| + 1
  {
    if i == m then 0 else Begins(run, acts, k, i, m - 1) + (if BeginsOn(run[m - 1], acts[m - 1], k) then 1 else 0)
  }

  /** Reads of version `k` ended by them. */
  ghost function Ends(acts: seq<TimeTravel.Action>, k: nat, i: nat, m: nat): nat
    requires i <= m <= |acts|
  {
    if i == m then 0 else Ends(acts, k, i, m - 1) + (if acts[m - 1] == EndRead(k) then 1 else 0)
  }

  /** What one action does to the readers of version `k`. */
  lemma {:induction false} StepReaders(s: Store, a: TimeTravel.Action, rate: real, k: nat)
    requires Enabled(s, a) && rate >= 1.0 && k < |s.versions|
    ensures k < |Perform(s, a, rate).versions|
    ensures Perform(s, a, rate).versions[k].readers + (if a == EndRead(k) then 1 else 0)
         == s.versions[k].readers + (if BeginsOn(s, a, k) then 1 else 0)
  {
    if a.Expand? {
      assert Perform(s, a, rate).versions[k] == Reclaimed(s.versions)[k];
    }
  }

  /** The read count of a version is what it was, plus the reads begun since, less the reads ended since. */
  lemma {:induction false} ReadersCount(run: seq<Store>, acts: seq<TimeTravel.Action>, rate: real, k: nat, i: nat, m: nat)
    requires IsTrace(run, acts, rate) && i <= m <= |acts| && k < |run[i].versions|
    ensures k < |run[m].versions|
    ensures run[m].versions[k].readers + Ends(acts, k, i, m) == run[i].versions[k].readers + Begins(run, acts, k, i, m)
    decreases m
  {
    if i < m {
      ReadersCount(run, acts, rate, k, i, m - 1);
      assert Did(run, acts, rate, m - 1);
      StepReaders(run[m - 1], acts[m - 1], rate, k);
    }
  }

  /** The version a read at `t` ends at is the newest that has its buffer and is not too new. */
  lemma {:induction false} WalkUnique(vs: seq<Version>, t: int, k: nat)
    requires k < |vs| && vs[k].held && vs[k].snapTs <= t
    requires forall i | k < i < |vs| :: !vs[i].held || vs[i].snapTs > t
    ensures Walk(vs, |vs|, t) == Some(k)
  {
    var r := Walk(vs, |vs|, t);
    assert r.Some? && r.value >= k;
  }

  /** Versions get no new buffers, and newer versions are stamped later than `t`. */
  ghost predicate OnlyLater(vs: seq<Version>, vs': seq<Version>, t: int) {
    && |vs| <= |vs'| && (forall i | 0 <= i < |vs| :: vs'[i].snapTs == vs[i].snapTs && (vs'[i].held ==> vs[i].held))
    && (forall i | |vs| <= i < |vs'| :: vs'[i].snapTs > t)
  }

  lemma {:induction false} WalkStays(vs: seq<Version>, vs': seq<Version>, t: int, k: nat)
    requires OnlyLater(vs, vs', t) && Walk(vs, |vs|, t) == Some(k) && vs'[k].held
    ensures Walk(vs', |vs'|, t) == Some(k)
  {
    forall i | k < i < |vs'| ensures !vs'[i].held || vs'[i].snapTs > t {
      if i < |vs| {
        assert !vs[i].held || vs[i].snapTs > t;
      }
    }
    WalkUnique(vs', t, k);
  }

  lemma {:induction false} SameLogsReads(vs: seq<Version>, vs': seq<Version>, t: int, k: nat)
    requires SameLogs(vs, vs') && Stampable(vs) && Stampable(vs') && k < |vs|
    ensures OnlyLater(vs, vs', t) && ReadVersion(vs'[k], t) == ReadVersion(vs[k], t)
  {
    assert vs'[k].Edges() == vs[k].Edges();
  }

  lemma {:induction false} ExpandReads(vs: seq<Version>, vs': seq<Version>, v: Version, t: int, k: nat)
    requires SameLogs(vs, vs') && Stampable(vs) && Stampable(vs' + [v]) && k < |vs| && v.snapTs > t
    ensures OnlyLater(vs, vs' + [v], t) && ReadVersion((vs' + [v])[k], t) == ReadVersion(vs[k], t)
  {
    forall i | 0 <= i < |vs'| ensures |vs'[i].stamps| == |vs'[i].arr.log| {
      assert (vs' + [v])[i] == vs'[i];
    }
    SameLogsReads(vs, vs', t, k);
  }

  lemma {:induction false} AppendReads(s: Store, u: Update, t: int, k: nat)
    requires s.versions != [] && Stampable(s.versions) && t < s.clock && k < |s.versions|
    ensures var vs' := s.versions[|s.versions| - 1 := Appended(s.Current(), u, s.clock)];
            Stampable(vs') && OnlyLater(s.versions, vs', t) && ReadVersion(vs'[k], t) == ReadVersion(s.versions[k], t)
  {
    if k == |s.versions| - 1 {
      AppendInvisible(s.versions[k], u, s.clock, t);
    }
  }

  lemma {:induction false} StepReads(s: Store, s': Store, a: TimeTravel.Action, rate: real, t: int, k: nat)
    requires rate >= 1.0 && Inv(s) && Inv(s') && Enabled(s, a) && s' == Perform(s, a, rate) && t < s.clock && k < |s.versions|
    ensures t < s'.clock && k < |s'.versions|
    ensures OnlyLater(s.versions, s'.versions, t) && ReadVersion(s'.versions[k], t) == ReadVersion(s.versions[k], t)
  {
    match a {
      case Tick =>
      case Append(u) => AppendReads(s, u, t, k);
      case Expand => ExpandReads(s.versions, Reclaimed(s.versions), s'.versions[|s'.versions| - 1], t, k);
      case BeginRead(_) =>
        ReadInv(s, a, rate);
        SameLogsReads(s.versions, s'.versions, t, k);
      case EndRead(_) =>
        ReadInv(s, a, rate);
        SameLogsReads(s.versions, s'.versions, t, k);
    }
  }

  /** A read begun by action `i` on version `k` has not ended before state `m`: fewer reads of that version have ended than
      were under way right after it began or have begun since. */
  ghost predicate StillReading(run: seq<Store>, acts: seq<TimeTravel.Action>, k: nat, i: nat, m: nat)
    requires i < m <= |acts| && |run| == |acts| + 1 && k < |run[i + 1].versions|
  {
    Ends(acts, k, i + 1, m) < run[i + 1].versions[k].readers + Begins(run, acts, k, i + 1, m)
  }

  lemma {:induction false} ReadVersionHeld(run: seq<Store>, acts: seq<TimeTravel.Action>, rate: real, k: nat, i: nat, m: nat)
    requires IsTrace(run, acts, rate) && i < m <= |acts| && k < |run[i + 1].versions| && StillReading(run, acts, k, i, m)
    ensures k < |run[m].versions| && run[m].versions[k].held
  {
    ReadersCount(run, acts, rate, k, i + 1, m);
    TraceIsRun(run, acts, rate);
    HeldIffRead(run, rate, m, k);
  }

  /** A read at a timestamp already drawn that has begun on version `k`: until it ends, version `k` keeps its buffer, the
      walk for that timestamp still ends there, and the read shows the same sequence of edges. */
  lemma {:induction false} BegunReadIsStable(run: seq<Store>, acts: seq<TimeTravel.Action>, rate: real, i: nat, m: nat, t: int,
                                            k: nat)
    requires IsTrace(run, acts, rate) && i < m <= |acts| && acts[i] == BeginRead(t) && t < run[i].clock
    requires Walk(run[i].versions, |run[i].versions|, t) == Some(k) && k < |run[i + 1].versions|
    requires forall j {:trigger StillReading(run, acts, k, i, j)} | i < j <= m :: StillReading(run, acts, k, i, j)
    ensures Stampable(run[i].versions) && Stampable(run[m].versions) && t < run[m].clock
    ensures k < |run[m].versions| && run[m].versions[k].held && Walk(run[m].versions, |run[m].versions|, t) == Some(k)
    ensures Read(run[i], t).Some? && Read(run[m], t) == Read(run[i], t)
    decreases m
  {
    TraceIsRun(run, acts, rate);
    RunInv(run, rate, i);
    RunInv(run, rate, m - 1);
    RunInv(run, rate, m);
    if m > i + 1 {
      BegunReadIsStable(run, acts, rate, i, m - 1, t, k);
    }
    assert Did(run, acts, rate, m - 1);
    StepReads(run[m - 1], run[m], acts[m - 1], rate, t, k);
    assert StillReading(run, acts, k, i, m);
    ReadVersionHeld(run, acts, rate, k, i, m);
    WalkStays(run[m - 1].versions, run[m].versions, t, k);
  }

  /** A read that begins counts itself: right after its begin it is still going on. */
  lemma {:induction false} BeginCounts(run: seq<Store>, acts: seq<TimeTravel.Action>, rate: real, i: nat, t: int, k: nat)
    requires IsTrace(run, acts, rate) && i < |acts| && acts[i] == BeginRead(t)
    requires Walk(run[i].versions, |run[i].versions|, t) == Some(k)
    ensures k < |run[i + 1].versions| && run[i + 1].versions[k].readers == run[i].versions[k].readers + 1
    ensures StillReading(run, acts, k, i, i + 1)
  {
    assert Did(run, acts, rate, i);
    StepReaders(run[i], acts[i], rate, k);
  }
}
