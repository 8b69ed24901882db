/** What scanning an edge array from its newest record computes, and when the unchecked copy may replace it.

    `RadixGraph::LogCompaction` and `RadixGraph::GetNeighbours` both walk the array backwards with a bitmap of
    destinations already seen in the log. The functions here are the specification of those loops. */
module Compaction {
  import opened EdgeRecords

  /** The entries emitted by the backward scan over `edges[..i]` when `seen` is the bitmap. Destinations are entered
      in the bitmap only while the scan is inside the log, at offsets from `snapDeg` on. */
  function BackScan(edges: seq<Edge>, snapDeg: nat, i: nat, seen: set<int>): seq<Edge>
    requires i <= |edges|
    decreases i
  {
    if i == 0 then []
    else
      var e := edges[i - 1];
      if e.idx in seen then BackScan(edges, snapDeg, i - 1, seen)
      else
        var seen' := if i - 1 >= snapDeg then seen + {e.idx} else seen;
        (if e.weight != 0.0 then [e] else []) + BackScan(edges, snapDeg, i - 1, seen')
  }

  function NewestFirst(edges: seq<Edge>, snapDeg: nat): seq<Edge> {
    BackScan(edges, snapDeg, |edges|, {})
  }

  /** The snapshot that compaction makes of a fully written array whose degree counter is `deg`. */
  function Compact(edges: seq<Edge>, snapDeg: nat, deg: int): seq<Edge> {
    if |edges| == deg then edges else NewestFirst(edges, snapDeg)
  }

  /** The bitmap after the scan has come down to offset `i`. */
  ghost function SeenFrom(edges: seq<Edge>, snapDeg: nat, i: nat): set<int>
    requires i <= |edges|
  {
    Touched(edges[(if i < snapDeg <= |edges| then snapDeg else i)..])
  }

  lemma {:induction false} SeenStep(edges: seq<Edge>, snapDeg: nat, i: nat)
    requires 0 < i <= |edges| && snapDeg <= |edges|
    ensures SeenFrom(edges, snapDeg, i - 1)
         == if i - 1 >= snapDeg then SeenFrom(edges, snapDeg, i) + {edges[i - 1].idx} else SeenFrom(edges, snapDeg, i)
  {
    if i - 1 >= snapDeg {
      var s := edges[i..];
      assert edges[i - 1..] == [edges[i - 1]] + s;
      TouchedPrepend(edges[i - 1], s);
    }
  }

  lemma {:induction false} TouchedPrepend(e: Edge, s: seq<Edge>)
    ensures Touched([e] + s) == Touched(s) + {e.idx}
  {
    assert ([e] + s)[0] == e;
    forall x | x in Touched(s) ensures x in Touched([e] + s) {
      var k :| 0 <= k < |s| && s[k].idx == x;
      assert ([e] + s)[k + 1].idx == x;
    }
  }

  /** The bitmap answers whether a destination occurs anywhere in the part already scanned, although it records the log
      only: within the snapshot destinations are distinct. */
  lemma {:induction false} SeenIsTouched(edges: seq<Edge>, snapDeg: nat, i: nat)
    requires 0 < i <= |edges| && snapDeg <= |edges| && IsSnapshot(edges[..snapDeg])
    ensures edges[i - 1].idx in SeenFrom(edges, snapDeg, i) <==> edges[i - 1].idx in Touched(edges[i..])
  {
    var d := edges[i - 1].idx;
    if i < snapDeg {
      if d in Touched(edges[i..]) {
        var k :| 0 <= k < |edges[i..]| && edges[i..][k].idx == d;
        if i + k < snapDeg {
          assert false;
        }
        assert edges[snapDeg..][i + k - snapDeg].idx == d;
      }
      if d in Touched(edges[snapDeg..]) {
        var k :| 0 <= k < |edges[snapDeg..]| && edges[snapDeg..][k].idx == d;
        assert edges[i..][snapDeg - i + k].idx == d;
      }
    }
  }

  lemma {:induction false} SnapshotExtend(s: seq<Edge>, e: Edge)
    requires IsSnapshot(s) && e.weight != 0.0 && e.idx !in Replay(s)
    ensures IsSnapshot(s + [e])
  {
    ReplaySnapshot(s);
  }

  lemma {:induction false} EmitNew(out: seq<Edge>, rest: seq<Edge>, e: Edge)
    requires IsSnapshot(out) && Replay(out) == Replay(rest) && e.idx !in Touched(rest) && e.weight != 0.0
    ensures IsSnapshot(out + [e]) && Replay(out + [e]) == Apply(Replay(rest), e)
  {
    ReplayTouched(rest);
    SnapshotExtend(out, e);
    assert (out + [e])[..|out|] == out;
  }

  /** One scan step keeps: the output is a snapshot and replays like the part of the array already scanned. */
  lemma {:induction false} ScanStep(edges: seq<Edge>, snapDeg: nat, i: nat, out: seq<Edge>)
    requires 0 < i <= |edges| && snapDeg <= |edges| && IsSnapshot(edges[..snapDeg])
    requires IsSnapshot(out) && Replay(out) == Replay(edges[i..])
    ensures var e := edges[i - 1];
            var out' := if e.idx !in SeenFrom(edges, snapDeg, i) && e.weight != 0.0 then out + [e] else out;
            IsSnapshot(out') && Replay(out') == Replay(edges[i - 1..])
  {
    var e := edges[i - 1];
    var rest := edges[i..];
    assert edges[i - 1..] == [e] + rest;
    ReplayPrepend(e, rest);
    SeenIsTouched(edges, snapDeg, i);
    if e.idx !in Touched(rest) {
      if e.weight != 0.0 {
        EmitNew(out, rest, e);
      } else {
        ReplayTouched(rest);
        assert Replay(rest) - {e.idx} == Replay(rest);
      }
    }
  }

  lemma {:induction false} BackScanUnfold(edges: seq<Edge>, snapDeg: nat, i: nat, out: seq<Edge>)
    requires 0 < i <= |edges| && snapDeg <= |edges|
    ensures var e := edges[i - 1];
            var out' := if e.idx !in SeenFrom(edges, snapDeg, i) && e.weight != 0.0 then out + [e] else out;
            (out + BackScan(edges, snapDeg, i, SeenFrom(edges, snapDeg, i))
             == out' + BackScan(edges, snapDeg, i - 1, SeenFrom(edges, snapDeg, i - 1)))
  {
    var e := edges[i - 1];
    SeenStep(edges, snapDeg, i);
    var seen := SeenFrom(edges, snapDeg, i);
    var seen' := SeenFrom(edges, snapDeg, i - 1);
    if e.idx in seen {
      assert seen' == seen;
    } else {
      var emit := if e.weight != 0.0 then [e] else [];
      var tail := BackScan(edges, snapDeg, i - 1, seen');
      assert out + (emit + tail) == (out + emit) + tail;
      assert e.weight == 0.0 ==> out + emit == out;
    }
  }

  /** What a loop body must do to one entry, and what the loop may then assume. */
  lemma {:induction false} ScanAdvance(edges: seq<Edge>, snapDeg: nat, i: nat, e: Edge, out: seq<Edge>, seen: set<int>,
                                       out': seq<Edge>, seen': set<int>)
    requires 0 < i <= |edges| && snapDeg <= |edges| && e == edges[i - 1] && seen == SeenFrom(edges, snapDeg, i)
    requires out' == if e.idx !in seen && e.weight != 0.0 then out + [e] else out
    requires seen' == if e.idx !in seen && i - 1 >= snapDeg then seen + {e.idx} else seen
    ensures seen' == SeenFrom(edges, snapDeg, i - 1)
    ensures out + BackScan(edges, snapDeg, i, seen) == out' + BackScan(edges, snapDeg, i - 1, seen')
  {
    SeenStep(edges, snapDeg, i);
    assert e.idx in seen ==> seen + {e.idx} == seen;
    BackScanUnfold(edges, snapDeg, i, out);
  }

  /** The scan has come down to offset `i`: `out` is emitted, `seen` is marked. */
  ghost predicate Scanned(edges: seq<Edge>, snapDeg: nat, i: nat, out: seq<Edge>, seen: set<int>) {
    && i <= |edges| && snapDeg <= |edges| && seen == SeenFrom(edges, snapDeg, i)
    && out + BackScan(edges, snapDeg, i, seen) == NewestFirst(edges, snapDeg)
  }

  lemma {:induction false} ScannedStart(edges: seq<Edge>, snapDeg: nat)
    requires snapDeg <= |edges|
    ensures Scanned(edges, snapDeg, |edges|, [], {})
  {
    assert edges[|edges|..] == [];
    assert [] + NewestFirst(edges, snapDeg) == NewestFirst(edges, snapDeg);
  }

  lemma {:induction false} ScannedNext(edges: seq<Edge>, snapDeg: nat, i: nat, e: Edge, out: seq<Edge>, seen: set<int>,
                                       out': seq<Edge>, seen': set<int>)
    requires 0 < i && Scanned(edges, snapDeg, i, out, seen) && e == edges[i - 1]
    requires out' == if e.idx !in seen && e.weight != 0.0 then out + [e] else out
    requires seen' == if e.idx !in seen && i - 1 >= snapDeg then seen + {e.idx} else seen
    ensures Scanned(edges, snapDeg, i - 1, out', seen')
  {
    ScanAdvance(edges, snapDeg, i, e, out, seen, out', seen');
  }

  lemma {:induction false} ScannedEnd(edges: seq<Edge>, snapDeg: nat, out: seq<Edge>, seen: set<int>)
    requires Scanned(edges, snapDeg, 0, out, seen)
    ensures out == NewestFirst(edges, snapDeg) && seen == Touched(edges[snapDeg..])
  {
    assert out + [] == out;
  }

  lemma {:induction false} BackScanCorrect(edges: seq<Edge>, snapDeg: nat, i: nat, out: seq<Edge>)
    requires i <= |edges| && snapDeg <= |edges| && IsSnapshot(edges[..snapDeg])
    requires IsSnapshot(out) && Replay(out) == Replay(edges[i..])
    ensures var r := out + BackScan(edges, snapDeg, i, SeenFrom(edges, snapDeg, i));
            IsSnapshot(r) && Replay(r) == Replay(edges)
    decreases i
  {
    if i == 0 {
      assert edges[0..] == edges;
      assert out + BackScan(edges, snapDeg, i, SeenFrom(edges, snapDeg, i)) == out;
    } else {
      var e := edges[i - 1];
      ScanStep(edges, snapDeg, i, out);
      BackScanUnfold(edges, snapDeg, i, out);
      BackScanCorrect(edges, snapDeg, i - 1,
        if e.idx !in SeenFrom(edges, snapDeg, i) && e.weight != 0.0 then out + [e] else out);
    }
  }

  /** The backward scan of any array that starts with a snapshot emits exactly one entry for each live destination,
      with its newest weight, and nothing for deleted ones. */
  lemma {:induction false} NewestFirstCorrect(edges: seq<Edge>, snapDeg: nat)
    requires snapDeg <= |edges| && IsSnapshot(edges[..snapDeg])
    ensures IsSnapshot(NewestFirst(edges, snapDeg)) && Replay(NewestFirst(edges, snapDeg)) == Replay(edges)
  {
    assert edges[|edges|..] == [];
    assert SeenFrom(edges, snapDeg, |edges|) == {};
    BackScanCorrect(edges, snapDeg, |edges|, []);
    assert [] + NewestFirst(edges, snapDeg) == NewestFirst(edges, snapDeg);
  }

  lemma {:induction false} BackScanLength(edges: seq<Edge>, snapDeg: nat, i: nat, seen: set<int>)
    requires i <= |edges|
    ensures |BackScan(edges, snapDeg, i, seen)| <= i
  {
    if i > 0 {
      var e := edges[i - 1];
      BackScanLength(edges, snapDeg, i - 1, seen);
      BackScanLength(edges, snapDeg, i - 1, if i - 1 >= snapDeg then seen + {e.idx} else seen);
    }
  }

  lemma {:induction false} BackScanMembers(edges: seq<Edge>, snapDeg: nat, i: nat, seen: set<int>)
    requires i <= |edges|
    ensures forall x | x in BackScan(edges, snapDeg, i, seen) :: x in edges
  {
    if i > 0 {
      var e := edges[i - 1];
      BackScanMembers(edges, snapDeg, i - 1, seen);
      BackScanMembers(edges, snapDeg, i - 1, if i - 1 >= snapDeg then seen + {e.idx} else seen);
    }
  }

  lemma {:induction false} CompactMembers(edges: seq<Edge>, snapDeg: nat, deg: int)
    ensures forall x | x in Compact(edges, snapDeg, deg) :: x in edges
  {
    BackScanMembers(edges, snapDeg, |edges|, {});
  }

  /** Compaction preserves meaning exactly when the scan runs or the unchecked copy happens to copy a snapshot. */
  lemma {:induction false} CompactExact(edges: seq<Edge>, snapDeg: nat, deg: int)
    requires snapDeg <= |edges| && IsSnapshot(edges[..snapDeg])
    ensures var r := Compact(edges, snapDeg, deg);
            (IsSnapshot(r) && Replay(r) == Replay(edges)) <==> (|edges| != deg || IsSnapshot(edges))
  {
    if |edges| != deg {
      NewestFirstCorrect(edges, snapDeg);
    }
  }

  /** The side condition is needed: inserting one edge twice leaves the counters equal, and the copy keeps both. */
  lemma {:induction false} DuplicateInsertSurvivesCompaction()
    ensures var log := [InsertEdge(7, 1.0), InsertEdge(7, 2.0)];
            !IsSnapshot(Compact(Records(log), 0, SumDelta(log)))
  {
    var log := [InsertEdge(7, 1.0), InsertEdge(7, 2.0)];
    assert log[..1] == [InsertEdge(7, 1.0)];
    assert log[..1][..0] == [];
    assert SumDelta(log[..1]) == 1;
    assert SumDelta(log) == 2;
    assert Records(log)[0].idx == Records(log)[1].idx;
  }

  ghost predicate OnlyInsertions(log: seq<Update>) {
    forall k | 0 <= k < |log| :: log[k].InsertEdge?
  }

  function CountUpdates(log: seq<Update>): nat {
    if log == [] then 0 else CountUpdates(log[..|log| - 1]) + (if log[|log| - 1].UpdateEdge? then 1 else 0)
  }

  function CountDeletes(log: seq<Update>): nat {
    if log == [] then 0 else CountDeletes(log[..|log| - 1]) + (if log[|log| - 1].DeleteEdge? then 1 else 0)
  }

  /** Written slots minus the degree counter: the number of updates plus twice the number of deletes in the log. */
  lemma {:induction false} CounterGap(log: seq<Update>)
    ensures |log| - SumDelta(log) == CountUpdates(log) + 2 * CountDeletes(log)
    ensures SumDelta(log) == |log| <==> OnlyInsertions(log)
  {
    if log != [] {
      var log' := log[..|log| - 1];
      CounterGap(log');
      if OnlyInsertions(log') {
        if SumDelta(log) == |log| {
          assert forall k | 0 <= k < |log'| :: log[k] == log'[k];
        }
      } else {
        var k :| 0 <= k < |log'| && !log'[k].InsertEdge?;
        assert log[k] == log'[k];
      }
    }
  }

  /** A log of well-formed insertions on top of a snapshot is itself a snapshot. */
  lemma {:induction false} InsertionsExtendSnapshot(snap: seq<Edge>, log: seq<Update>)
    requires IsSnapshot(snap) && WellFormed(Replay(snap), log)
    requires OnlyInsertions(log)
    ensures IsSnapshot(snap + Records(log))
  {
    if log == [] {
      assert snap + Records(log) == snap;
    } else {
      var log' := log[..|log| - 1];
      var e := log[|log| - 1].Record();
      assert log == log' + [log[|log| - 1]];
      RecordsAppend(log', log[|log| - 1]);
      InsertionsExtendSnapshot(snap, log');
      ReplayConcat(map[], snap, Records(log'));
      SnapshotExtend(snap + Records(log'), e);
      assert snap + (Records(log') + [e]) == snap + Records(log') + [e];
    }
  }

  /** Conversely, insertions that leave a snapshot were each legal where they stood. */
  lemma {:induction false} SnapshotWasWellFormed(snap: seq<Edge>, log: seq<Update>)
    requires IsSnapshot(snap + Records(log)) && OnlyInsertions(log)
    ensures WellFormed(Replay(snap), log)
  {
    if log != [] {
      var log', u := log[..|log| - 1], log[|log| - 1];
      var all, init := snap + Records(log), snap + Records(log');
      assert log == log' + [u];
      RecordsAppend(log', u);
      assert all[..|all| - 1] == init && all[|all| - 1] == u.Record();
      SnapshotInit(all);
      SnapshotWasWellFormed(snap, log');
      ReplayConcat(map[], snap, Records(log'));
      ReplayTouched(init);
    }
  }

  /** Compacting a snapshot and any log whatever is right if and only if the log holds something other than an insertion,
      so that the scan runs, or every insertion was legal where it stood. */
  lemma {:induction false} CompactExactLog(snap: seq<Edge>, log: seq<Update>)
    requires IsSnapshot(snap)
    ensures var r := Compact(snap + Records(log), |snap|, |snap| + SumDelta(log));
            (IsSnapshot(r) && Replay(r) == ReplayFrom(Replay(snap), Records(log)))
            <==> (!OnlyInsertions(log) || WellFormed(Replay(snap), log))
  {
    var edges := snap + Records(log);
    assert edges[..|snap|] == snap;
    CompactExact(edges, |snap|, |snap| + SumDelta(log));
    ReplayConcat(map[], snap, Records(log));
    CounterGap(log);
    if OnlyInsertions(log) {
      if WellFormed(Replay(snap), log) {
        InsertionsExtendSnapshot(snap, log);
      } else if IsSnapshot(edges) {
        SnapshotWasWellFormed(snap, log);
      }
    }
  }

  /** On a well-formed history the counters can only agree when the log holds insertions alone, and then copying
      the array is safe. */
  lemma {:induction false} FastPathIsSafe(snap: seq<Edge>, log: seq<Update>, edges: seq<Edge>)
    requires IsSnapshot(snap) && WellFormed(Replay(snap), log) && edges == snap + Records(log)
    ensures |edges| != |snap| + SumDelta(log) || IsSnapshot(edges)
  {
    if SumDelta(log) == |log| {
      CounterGap(log);
      InsertionsExtendSnapshot(snap, log);
    }
  }

  lemma {:induction false} CompactArray(snap: seq<Edge>, log: seq<Update>, edges: seq<Edge>)
    requires IsSnapshot(snap) && WellFormed(Replay(snap), log) && edges == snap + Records(log)
    ensures var r := Compact(edges, |snap|, |snap| + SumDelta(log));
            IsSnapshot(r) && Replay(r) == Replay(edges)
  {
    FastPathIsSafe(snap, log, edges);
    assert edges[..|snap|] == snap;
    CompactExact(edges, |snap|, |snap| + SumDelta(log));
  }

  /** For every well-formed history compaction yields a snapshot with the same latest-wins map, whichever path it
      takes. */
  lemma {:induction false} CompactPreservesMeaning(snap: seq<Edge>, log: seq<Update>)
    requires IsSnapshot(snap) && WellFormed(Replay(snap), log)
    ensures var r := Compact(snap + Records(log), |snap|, |snap| + SumDelta(log));
            IsSnapshot(r) && Replay(r) == ReplayFrom(Replay(snap), Records(log))
  {
    CompactArray(snap, log, snap + Records(log));
    ReplayConcat(map[], snap, Records(log));
  }

  /** When in addition updates and deletes name live edges, the degree counter is the number of live edges. */
  lemma {:induction false} StrictDegree(snap: seq<Edge>, log: seq<Update>)
    requires IsSnapshot(snap) && Strict(Replay(snap), log)
    ensures |ReplayFrom(Replay(snap), Records(log)).Keys| == |snap| + SumDelta(log)
  {
    if log == [] {
      ReplaySnapshot(snap);
    } else {
      var log' := log[..|log| - 1];
      var last := log[|log| - 1];
      assert log == log' + [last];
      StrictDegree(snap, log');
      ReplayAppend(Replay(snap), log', last);
      var m := ReplayFrom(Replay(snap), Records(log'));
      var m' := Apply(m, last.Record());
      match last {
        case InsertEdge(d, _) => assert m'.Keys == m.Keys + {d};
        case UpdateEdge(d, _) => assert m'.Keys == m.Keys;
        case DeleteEdge(d) => assert m'.Keys == m.Keys - {d};
      }
    }
  }

  /** Hence in a strict history the compacted snapshot has exactly `deg` entries, so no regrowth happens. */
  lemma {:induction false} StrictCompactLength(snap: seq<Edge>, log: seq<Update>, r: seq<Edge>)
    requires IsSnapshot(snap) && Strict(Replay(snap), log)
    requires r == Compact(snap + Records(log), |snap|, |snap| + SumDelta(log))
    ensures |r| == |snap| + SumDelta(log)
  {
    StrictIsWellFormed(Replay(snap), log);
    CompactPreservesMeaning(snap, log);
    StrictDegree(snap, log);
    SnapshotKeys(r);
  }
}
