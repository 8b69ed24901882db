/** Edge records of one vertex and what a log of them means.

    A vertex stores its edges in one array: a compacted snapshot followed by an append-only log.
    A record with weight zero deletes the edge; of several records with one destination the newest wins. */
module EdgeRecords {

  /** One array slot. `idx` is the internal offset of the destination, -1 in a slot nobody has written. */
  datatype Edge = Edge(weight: real, idx: int)

  const UNWRITTEN := Edge(0.0, -1)

  /** The three public mutations; each appends one record and moves the degree counter. */
  datatype Update =
    | InsertEdge(des: int, w: real)
    | UpdateEdge(des: int, w: real)
    | DeleteEdge(des: int)
  {
    function Record(): Edge {
      match this
      case InsertEdge(d, x) => Edge(x, d)
      case UpdateEdge(d, x) => Edge(x, d)
      case DeleteEdge(d) => Edge(0.0, d)
    }

    function DeltaDeg(): int {
      match this
      case InsertEdge(_, _) => 1
      case UpdateEdge(_, _) => 0
      case DeleteEdge(_) => -1
    }
  }

  function Apply(m: map<int, real>, e: Edge): map<int, real> {
    if e.weight == 0.0 then m - {e.idx} else m[e.idx := e.weight]
  }

  /** The map from destination to weight left by a log that starts at `m`. */
  function ReplayFrom(m: map<int, real>, s: seq<Edge>): map<int, real> {
    if s == [] then m else Apply(ReplayFrom(m, s[..|s| - 1]), s[|s| - 1])
  }

  function Replay(s: seq<Edge>): map<int, real> {
    ReplayFrom(map[], s)
  }

  ghost function Touched(s: seq<Edge>): set<int> {
    set k | 0 <= k < |s| :: s[k].idx
  }

  /** A snapshot lists live edges only, each destination once. */
  ghost predicate IsSnapshot(s: seq<Edge>) {
    && (forall k | 0 <= k < |s| :: s[k].weight != 0.0)
    && (forall j, k | 0 <= j < k < |s| :: s[j].idx != s[k].idx)
  }

  function Records(log: seq<Update>): (s: seq<Edge>)
    ensures |s| == |log|
    ensures forall k | 0 <= k < |log| :: s[k] == log[k].Record()
  {
    seq(|log|, k requires 0 <= k < |log| => log[k].Record())
  }

  function SumDelta(log: seq<Update>): int {
    if log == [] then 0 else SumDelta(log[..|log| - 1]) + log[|log| - 1].DeltaDeg()
  }

  /** Whether an update may come next: an insertion must name an edge that is not live, with a non-zero weight.
      UpdateEdge and DeleteEdge are unrestricted. */
  ghost predicate Legal(m: map<int, real>, u: Update) {
    u.InsertEdge? ==> u.w != 0.0 && u.des !in m
  }

  /** Additionally UpdateEdge and DeleteEdge must name a live edge, and no update writes weight zero. */
  ghost predicate StrictlyLegal(m: map<int, real>, u: Update) {
    && Legal(m, u)
    && (!u.InsertEdge? ==> u.des in m)
    && (u.UpdateEdge? ==> u.w != 0.0)
  }

  /** A history in which every update is legal where it stands. */
  ghost predicate WellFormed(m: map<int, real>, log: seq<Update>) {
    log == [] ||
    (var init := log[..|log| - 1];
     WellFormed(m, init) && Legal(ReplayFrom(m, Records(init)), log[|log| - 1]))
  }

  ghost predicate Strict(m: map<int, real>, log: seq<Update>) {
    log == [] ||
    (var init := log[..|log| - 1];
     Strict(m, init) && StrictlyLegal(ReplayFrom(m, Records(init)), log[|log| - 1]))
  }

  lemma {:induction false} StrictIsWellFormed(m: map<int, real>, log: seq<Update>)
    requires Strict(m, log)
    ensures WellFormed(m, log)
  {
    if log != [] {
      StrictIsWellFormed(m, log[..|log| - 1]);
    }
  }

  lemma {:induction false} ReplayConcat(m: map<int, real>, a: seq<Edge>, b: seq<Edge>)
    ensures ReplayFrom(m, a + b) == ReplayFrom(ReplayFrom(m, a), b)
  {
    if b == [] {
      assert a + b == a;
    } else {
      var b' := b[..|b| - 1];
      assert (a + b)[..|a + b| - 1] == a + b';
      ReplayConcat(m, a, b');
    }
  }

  /** What a log does to a destination depends on the starting map only if the log never touches it. */
  lemma {:induction false} ReplayPointwise(m: map<int, real>, s: seq<Edge>, d: int)
    ensures d !in Touched(s) ==>
              (d in ReplayFrom(m, s) <==> d in m) && (d in m ==> ReplayFrom(m, s)[d] == m[d])
    ensures d in Touched(s) ==>
              (d in ReplayFrom(m, s) <==> d in Replay(s)) && (d in Replay(s) ==> ReplayFrom(m, s)[d] == Replay(s)[d])
  {
    if s != [] {
      var s' := s[..|s| - 1];
      var e := s[|s| - 1];
      ReplayPointwise(m, s', d);
      assert Touched(s) == Touched(s') + {e.idx} by {
        forall x | x in Touched(s') + {e.idx} ensures x in Touched(s) {
          if x == e.idx {
            assert s[|s| - 1].idx == x;
          } else {
            var k :| 0 <= k < |s'| && s'[k].idx == x;
            assert s[k].idx == x;
          }
        }
      }
    }
  }

  lemma {:induction false} ReplayTouched(s: seq<Edge>)
    ensures Replay(s).Keys <= Touched(s)
  {
    forall d | d in Replay(s) ensures d in Touched(s) {
      ReplayPointwise(map[], s, d);
    }
  }

  /** An older record in front of a log shows only where the log is silent. */
  lemma {:induction false} ReplayPrepend(e: Edge, s: seq<Edge>)
    ensures Replay([e] + s) == if e.idx in Touched(s) then Replay(s) else Apply(Replay(s), e)
  {
    ReplayConcat(map[], [e], s);
    assert Replay([e]) == Apply(map[], e) by { assert [e][..0] == []; }
    var m := Apply(map[], e);
    assert Replay([e] + s) == ReplayFrom(m, s);
    ReplayTouched(s);
    forall d ensures d in ReplayFrom(m, s) <==> d in (if e.idx in Touched(s) then Replay(s) else Apply(Replay(s), e)) {
      ReplayPointwise(m, s, d);
    }
    forall d | d in ReplayFrom(m, s)
      ensures ReplayFrom(m, s)[d] == (if e.idx in Touched(s) then Replay(s) else Apply(Replay(s), e))[d]
    {
      ReplayPointwise(m, s, d);
    }
  }

  lemma {:induction false} TouchedLast(s: seq<Edge>)
    requires s != []
    ensures Touched(s) == Touched(s[..|s| - 1]) + {s[|s| - 1].idx}
  {
    var s' := s[..|s| - 1];
    assert s[|s| - 1].idx in Touched(s);
    forall x | x in Touched(s') ensures x in Touched(s) {
      var k :| 0 <= k < |s'| && s'[k].idx == x;
      assert s[k].idx == x;
    }
    forall x | x in Touched(s) ensures x in Touched(s') || x == s[|s| - 1].idx {
      var k :| 0 <= k < |s| && s[k].idx == x;
      assert k < |s'| ==> s'[k].idx == x;
    }
  }

  lemma {:induction false} SnapshotInit(s: seq<Edge>)
    requires IsSnapshot(s) && s != []
    ensures IsSnapshot(s[..|s| - 1]) && s[|s| - 1].idx !in Touched(s[..|s| - 1]) && s[|s| - 1].weight != 0.0
  {
  }

  lemma {:induction false} SnapshotKeys(s: seq<Edge>)
    requires IsSnapshot(s)
    ensures Replay(s).Keys == Touched(s) && |Touched(s)| == |s|
  {
    if s != [] {
      SnapshotInit(s);
      SnapshotKeys(s[..|s| - 1]);
      TouchedLast(s);
    }
  }

  lemma {:induction false} SnapshotWeight(s: seq<Edge>, k: nat)
    requires IsSnapshot(s) && k < |s|
    ensures s[k].idx in Replay(s) && Replay(s)[s[k].idx] == s[k].weight
  {
    SnapshotInit(s);
    if k < |s| - 1 {
      SnapshotWeight(s[..|s| - 1], k);
    }
  }

  /** A snapshot replays to exactly the edges it lists. */
  lemma {:induction false} ReplaySnapshot(s: seq<Edge>)
    requires IsSnapshot(s)
    ensures Replay(s).Keys == Touched(s) && |Touched(s)| == |s|
    ensures forall k | 0 <= k < |s| :: s[k].idx in Replay(s) && Replay(s)[s[k].idx] == s[k].weight
  {
    SnapshotKeys(s);
    forall k | 0 <= k < |s| ensures s[k].idx in Replay(s) && Replay(s)[s[k].idx] == s[k].weight {
      SnapshotWeight(s, k);
    }
  }

  lemma {:induction false} RecordsConcat(a: seq<Update>, b: seq<Update>)
    ensures Records(a + b) == Records(a) + Records(b)
  {
  }

  /** Well-formedness can be checked log by log: the second log continues from where the first one leaves the map. */
  lemma {:induction false} WellFormedConcat(m: map<int, real>, a: seq<Update>, b: seq<Update>)
    ensures WellFormed(m, a + b) <==> WellFormed(m, a) && WellFormed(ReplayFrom(m, Records(a)), b)
  {
    if b == [] {
      assert a + b == a;
    } else {
      var b' := b[..|b| - 1];
      assert (a + b)[..|a + b| - 1] == a + b';
      WellFormedConcat(m, a, b');
      RecordsConcat(a, b');
      ReplayConcat(m, Records(a), Records(b'));
    }
  }

  lemma {:induction false} RecordsAppend(log: seq<Update>, u: Update)
    ensures Records(log + [u]) == Records(log) + [u.Record()]
  {
  }

  /** Appending one update applies one record. */
  lemma {:induction false} ReplayAppend(m: map<int, real>, log: seq<Update>, u: Update)
    ensures ReplayFrom(m, Records(log + [u])) == Apply(ReplayFrom(m, Records(log)), u.Record())
  {
    RecordsAppend(log, u);
    assert (Records(log) + [u.Record()])[..|log|] == Records(log);
  }

  lemma {:induction false} WellFormedAppend(m: map<int, real>, log: seq<Update>, u: Update)
    ensures WellFormed(m, log + [u]) <==> WellFormed(m, log) && Legal(ReplayFrom(m, Records(log)), u)
    ensures Strict(m, log + [u]) <==> Strict(m, log) && StrictlyLegal(ReplayFrom(m, Records(log)), u)
  {
    assert (log + [u])[..|log|] == log;
  }
}
