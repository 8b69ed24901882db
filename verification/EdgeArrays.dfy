/** The multi-version edge array of a vertex as the source keeps it: counters, an edge buffer written in place, a
    timestamp buffer, and a per-thread bitmap used to drop stale records. One thread at a time; the interleavings are
    the subject of InsertProtocol and VersionChain. */
module EdgeArrays {
  import opened EdgeRecords
  import opened Compaction
  import opened Bitmaps

  class GlobalInfo {
    var globalTimestamp: int
    var isMixedWorkloads: bool

    constructor ()
      ensures globalTimestamp == 0 && !isMixedWorkloads
    {
      globalTimestamp := 0;
      isMixedWorkloads := false;
    }

    method GetGlobalTimestamp() returns (t: int)
      modifies this`globalTimestamp
      ensures t == old(globalTimestamp) && globalTimestamp == t + 1
    {
      t := globalTimestamp;
      globalTimestamp := globalTimestamp + 1;
    }
  }

  /** `cap` after the slow path has regrown an array of capacity `alloc` by eight slots at a time to hold `num`. */
  function Grown(alloc: nat, num: nat): (cap: nat)
    ensures cap >= alloc && cap >= num
    ensures num <= alloc ==> cap == alloc
    decreases if num > alloc then num - alloc else 0
  {
    if num <= alloc then alloc else Grown(alloc + 8, num)
  }

  class WeightedEdgeArray {
    var size: int
    var cap: nat
    var physicalSize: nat
    var edge: array?<Edge>
    var timestamp: array?<int>
    var snapshotTimestamp: int
    var snapshotDeg: nat
    var deg: int

    ghost predicate Valid()
      reads this, edge
    {
      && edge != null && edge.Length == cap
      && snapshotDeg <= physicalSize <= cap
      && (forall k | 0 <= k < physicalSize :: edge[k].idx >= 0)
      && (timestamp != null ==> timestamp.Length == cap - snapshotDeg && timestamp as object != edge)
    }

    /** The records in slot order: the snapshot, then the log. */
    ghost function Written(): seq<Edge>
      requires edge != null && physicalSize <= edge.Length
      reads this, edge
    {
      edge[..physicalSize]
    }

    constructor (m: nat)
      ensures Valid() && cap == m && Written() == [] && edge[..] == seq(m, _ => UNWRITTEN)
      ensures size == 0 && snapshotDeg == 0 && deg == 0 && physicalSize == 0 && timestamp == null
      ensures snapshotTimestamp == 0
      ensures fresh(edge)
    {
      size, cap, physicalSize, snapshotTimestamp, snapshotDeg, deg := 0, m, 0, 0, 0, 0;
      edge := new Edge[m](_ => UNWRITTEN);
      timestamp := null;
      new;
      assert edge[..] == seq(m, _ => UNWRITTEN);
    }

    /** Fills the reserved slot after the last written one: timestamp, degree counter, edge, then the written count, in
        that order. */
    method WriteSlot(e: Edge, deltaDeg: int, info: GlobalInfo)
      requires Valid() && physicalSize < cap && e.idx >= 0
      modifies this`deg, this`physicalSize, edge, timestamp, info`globalTimestamp
      ensures Valid() && physicalSize == old(physicalSize) + 1 && deg == old(deg) + deltaDeg
      ensures Written() == old(Written()) + [e]
      ensures forall k | 0 <= k < old(physicalSize) :: edge[k] == old(edge[k])
      ensures edge[old(physicalSize)] == e
      ensures timestamp != null ==>
                timestamp[..physicalSize - snapshotDeg]
                == old(timestamp[..physicalSize - snapshotDeg]) + [old(info.globalTimestamp)]
      ensures info.globalTimestamp == old(info.globalTimestamp) + (if timestamp != null then 1 else 0)
    {
      var i := physicalSize;
      if timestamp != null {
        timestamp[i - snapshotDeg] := info.GetGlobalTimestamp();
      }
      deg := deg + deltaDeg;
      edge[i] := e;
      physicalSize := physicalSize + 1;
    }
  }

  lemma {:induction false} GrownStep(alloc: nat, num: nat)
    ensures Grown(alloc, num + 1) == if Grown(alloc, num) == num then num + 8 else Grown(alloc, num)
    decreases if num > alloc then num - alloc else 0
  {
    if num > alloc {
      GrownStep(alloc + 8, num);
    }
  }

  lemma {:induction false} TouchedTail(s: seq<Edge>, i: nat)
    requires i < |s|
    ensures Touched(s[i..]) == Touched(s[i + 1..]) + {s[i].idx}
  {
    assert s[i..] == [s[i]] + s[i + 1..];
    TouchedPrepend(s[i], s[i + 1..]);
  }

  /** Clears the bits that a scan of `edges[snapDeg..to]` has set. */
  method ClearSeen(arr: WeightedEdgeArray, to: nat, bitmap: SegmentedBitmap)
    requires arr.Valid() && to <= arr.physicalSize && bitmap.Valid()
    requires arr.snapshotDeg <= to ==> bitmap.bits <= Touched(arr.edge[arr.snapshotDeg..to])
    requires to < arr.snapshotDeg ==> bitmap.bits == {}
    modifies bitmap
    ensures bitmap.Valid() && bitmap.bits == {}
  {
    if arr.snapshotDeg <= to {
      ghost var edges := arr.edge[..to];
      assert edges[arr.snapshotDeg..] == arr.edge[arr.snapshotDeg..to];
      for i := arr.snapshotDeg to to
        invariant bitmap.Valid() && bitmap.bits <= Touched(edges[i..])
      {
        TouchedTail(edges, i);
        bitmap.ClearBit(arr.edge[i].idx);
      }
      assert edges[to..] == [];
    }
  }

  /** The checked path of compaction: scan from the newest record, skip destinations already seen, regrow when more
      live edges turn up than the degree counter promised. */
  method ScanInto(oldArr: WeightedEdgeArray, emptyArr: WeightedEdgeArray, bitmap: SegmentedBitmap)
    returns (num: nat, newArr: WeightedEdgeArray)
    requires oldArr.Valid() && emptyArr.Valid() && emptyArr != oldArr && emptyArr.edge != oldArr.edge
    requires emptyArr.timestamp == null
    requires bitmap.Valid() && bitmap.bits == {}
    modifies emptyArr.edge, bitmap
    ensures newArr == emptyArr || fresh(newArr)
    ensures newArr.edge != null && (newArr.edge == emptyArr.edge || fresh(newArr.edge))
    ensures newArr.edge.Length == newArr.cap && newArr.timestamp == null && num <= newArr.cap
    ensures newArr.edge[..num] == NewestFirst(oldArr.Written(), oldArr.snapshotDeg)
    ensures newArr.cap == Grown(emptyArr.cap, num)
    ensures bitmap.Valid() && bitmap.bits == {}
  {
    ghost var edges := oldArr.Written();
    num, newArr := ScanDown(oldArr, emptyArr, bitmap);
    ScannedEnd(edges, oldArr.snapshotDeg, newArr.edge[..num], bitmap.bits);
    assert edges[oldArr.snapshotDeg..] == oldArr.edge[oldArr.snapshotDeg..oldArr.physicalSize];
    ClearSeen(oldArr, oldArr.physicalSize, bitmap);
  }

  /** The scan itself, from the newest record down to the first. */
  method ScanDown(oldArr: WeightedEdgeArray, emptyArr: WeightedEdgeArray, bitmap: SegmentedBitmap)
    returns (num: nat, newArr: WeightedEdgeArray)
    requires oldArr.Valid() && emptyArr.Valid() && emptyArr != oldArr && emptyArr.edge != oldArr.edge
    requires emptyArr.timestamp == null
    requires bitmap.Valid() && bitmap.bits == {}
    modifies emptyArr.edge, bitmap
    ensures newArr == emptyArr || fresh(newArr)
    ensures newArr.edge != null && (newArr.edge == emptyArr.edge || fresh(newArr.edge))
    ensures newArr.edge.Length == newArr.cap && newArr.timestamp == null && num <= newArr.cap
    ensures newArr.cap == Grown(emptyArr.cap, num)
    ensures bitmap.Valid() && Scanned(oldArr.Written(), oldArr.snapshotDeg, 0, newArr.edge[..num], bitmap.bits)
  {
    newArr, num := emptyArr, 0;
    ghost var edges := oldArr.Written();
    ghost var snapDeg := oldArr.snapshotDeg;
    var i := oldArr.physicalSize;
    ScannedStart(edges, snapDeg);
    assert newArr.edge[..0] == [];
    while i > 0
      invariant 0 <= i <= oldArr.physicalSize
      invariant newArr == emptyArr || fresh(newArr)
      invariant newArr.edge != null && (newArr.edge == emptyArr.edge || fresh(newArr.edge))
      invariant newArr.edge.Length == newArr.cap && newArr.timestamp == null && num <= newArr.cap
      invariant newArr.cap == Grown(emptyArr.cap, num)
      invariant bitmap.Valid() && Scanned(edges, snapDeg, i, newArr.edge[..num], bitmap.bits)
      invariant oldArr.Written() == edges
    {
      i := i - 1;
      num, newArr := ScanNext(oldArr, i, newArr, num, bitmap, emptyArr.cap);
    }
  }

  /** One more record scanned. */
  method ScanNext(oldArr: WeightedEdgeArray, i: nat, arr: WeightedEdgeArray, num: nat, bitmap: SegmentedBitmap, ghost alloc: nat)
    returns (num': nat, r: WeightedEdgeArray)
    requires oldArr.Valid() && i < oldArr.physicalSize && oldArr.edge != arr.edge
    requires arr.edge != null && num <= arr.cap == arr.edge.Length && arr.timestamp == null && arr.cap == Grown(alloc, num)
    requires bitmap.Valid() && Scanned(oldArr.Written(), oldArr.snapshotDeg, i + 1, arr.edge[..num], bitmap.bits)
    modifies arr.edge, bitmap
    ensures bitmap.Valid()
    ensures r.edge != null && num' <= r.cap == r.edge.Length && r.timestamp == null && r.cap == Grown(alloc, num')
    ensures (r == arr && r.edge == old(arr.edge)) || (fresh(r) && fresh(r.edge))
    ensures Scanned(oldArr.Written(), oldArr.snapshotDeg, i, r.edge[..num'], bitmap.bits)
  {
    ghost var out, seen := arr.edge[..num], bitmap.bits;
    GrownStep(alloc, num);
    num', r := ScanOne(oldArr, i, arr, num, bitmap);
    ScannedNext(oldArr.Written(), oldArr.snapshotDeg, i + 1, oldArr.edge[i], out, seen, r.edge[..num'], bitmap.bits);
  }

  /** The loop body of the scan: the record at offset `i` is emitted if its destination is new and its weight is not
      zero, and its destination is marked if it lies in the log. */
  method ScanOne(oldArr: WeightedEdgeArray, i: nat, arr: WeightedEdgeArray, num: nat, bitmap: SegmentedBitmap)
    returns (num': nat, r: WeightedEdgeArray)
    requires oldArr.Valid() && i < oldArr.physicalSize && oldArr.edge != arr.edge
    requires arr.edge != null && num <= arr.cap == arr.edge.Length && arr.timestamp == null
    requires bitmap.Valid()
    modifies arr.edge, bitmap
    ensures bitmap.Valid()
    ensures var e := oldArr.edge[i];
            && r.edge != null && num' <= r.cap == r.edge.Length && r.timestamp == null
            && ((r == arr && r.edge == old(arr.edge)) || (fresh(r) && fresh(r.edge)))
            && (if e.idx !in old(bitmap.bits) && e.weight != 0.0
                then num' == num + 1 && r.edge[..num'] == old(arr.edge[..num]) + [e]
                     && r.cap == (if arr.cap == num then num + 8 else arr.cap)
                else num' == num && r == arr && r.edge[..num'] == old(arr.edge[..num]))
            && bitmap.bits == (if e.idx !in old(bitmap.bits) && i >= oldArr.snapshotDeg
                               then old(bitmap.bits) + {e.idx} else old(bitmap.bits))
  {
    r, num' := arr, num;
    var e := oldArr.edge[i];
    var seen := bitmap.GetBit(e.idx);
    if !seen {
      if e.weight != 0.0 {
        r := Emit(r, num, e);
        num' := num + 1;
      }
      if i >= oldArr.snapshotDeg {
        bitmap.SetBit(e.idx);
      }
    }
  }

  /** Appends one entry, moving to a buffer eight slots longer when the current one is full. */
  method Emit(arr: WeightedEdgeArray, num: nat, e: Edge) returns (r: WeightedEdgeArray)
    requires arr.edge != null && num <= arr.cap == arr.edge.Length && arr.timestamp == null
    modifies arr.edge
    ensures if num < arr.cap then r == arr && r.edge == old(arr.edge) else fresh(r) && r.edge != null && fresh(r.edge)
    ensures r.edge != null && r.edge.Length == r.cap && r.timestamp == null
    ensures r.cap == if num < arr.cap then arr.cap else num + 8
    ensures r.edge[..num + 1] == old(arr.edge[..num]) + [e]
  {
    r := arr;
    if num >= arr.cap {
      r := Regrow(arr, num);
    }
    r.edge[num] := Edge(e.weight, e.idx);
  }

  method Regrow(full: WeightedEdgeArray, num: nat) returns (r: WeightedEdgeArray)
    requires full.edge != null && num == full.cap == full.edge.Length
    ensures fresh(r) && r.edge != null && fresh(r.edge) && r.timestamp == null
    ensures r.cap == num + 8 == r.edge.Length && r.edge[..num] == full.edge[..num]
  {
    r := new WeightedEdgeArray(num + 8);
    for j := 0 to num
      invariant r.edge[..j] == full.edge[..j]
      modifies r.edge
    {
      r.edge[j] := full.edge[j];
    }
  }

  /** Compaction of a fully written array, exactly as the specification function says: contents, counters, capacity
      after regrowth, timestamps, and a clean bitmap afterwards. The destination must hold the unchecked copy, which
      every caller's allocation does. */
  method LogCompaction(oldArr: WeightedEdgeArray, emptyArr: WeightedEdgeArray, bitmap: SegmentedBitmap, info: GlobalInfo)
    returns (newArr: WeightedEdgeArray)
    requires oldArr.Valid() && emptyArr.Valid() && emptyArr != oldArr && emptyArr.edge != oldArr.edge
    requires emptyArr.timestamp == null
    requires bitmap.Valid() && bitmap.bits == {}
    requires oldArr.physicalSize == oldArr.deg ==> oldArr.physicalSize <= emptyArr.cap
    modifies emptyArr, emptyArr.edge, bitmap, info
    ensures newArr == emptyArr || fresh(newArr)
    ensures newArr.edge != null && (newArr.edge == old(emptyArr.edge) || fresh(newArr.edge))
    ensures newArr.timestamp != null ==> fresh(newArr.timestamp)
    ensures newArr.Valid() && newArr.Written() == Compact(old(oldArr.Written()), oldArr.snapshotDeg, oldArr.deg)
    ensures newArr.snapshotDeg == newArr.physicalSize == newArr.size == newArr.deg
    ensures newArr.cap == Grown(old(emptyArr.cap), newArr.physicalSize)
    ensures (newArr.timestamp != null) == info.isMixedWorkloads && info.isMixedWorkloads == old(info.isMixedWorkloads)
    ensures newArr.snapshotTimestamp == old(info.globalTimestamp) && info.globalTimestamp == old(info.globalTimestamp) + 1
    ensures bitmap.Valid() && bitmap.bits == {}
  {
    var num: nat := 0;
    newArr := emptyArr;
    if oldArr.physicalSize == oldArr.deg {
      num := oldArr.physicalSize;
      CopyAll(oldArr, newArr);
    } else {
      num, newArr := ScanInto(oldArr, emptyArr, bitmap);
    }
    CompactedIndices(oldArr, newArr.edge[..num]);
    Seal(newArr, num, info);
  }

  /** Publishes `num` written entries as the snapshot of `arr`. */
  method Seal(arr: WeightedEdgeArray, num: nat, info: GlobalInfo)
    requires arr.edge != null && num <= arr.cap == arr.edge.Length && arr.timestamp == null
    requires forall k | 0 <= k < num :: arr.edge[..num][k].idx >= 0
    modifies arr, info`globalTimestamp
    ensures arr.edge == old(arr.edge) && arr.cap == old(arr.cap)
    ensures arr.Valid() && arr.Written() == old(arr.edge[..num])
    ensures arr.snapshotDeg == arr.physicalSize == arr.size == arr.deg == num
    ensures arr.timestamp != null ==> fresh(arr.timestamp)
    ensures (arr.timestamp != null) == info.isMixedWorkloads
    ensures arr.snapshotTimestamp == old(info.globalTimestamp) && info.globalTimestamp == old(info.globalTimestamp) + 1
  {
    assert forall k | 0 <= k < num :: arr.edge[k] == arr.edge[..num][k];
    arr.size := num;
    arr.snapshotDeg := num;
    arr.deg := num;
    arr.physicalSize := num;
    if info.isMixedWorkloads {
      arr.timestamp := new int[arr.cap - num];
    }
    arr.snapshotTimestamp := info.GetGlobalTimestamp();
  }

  lemma {:induction false} CompactedIndices(arr: WeightedEdgeArray, out: seq<Edge>)
    requires arr.Valid() && out == Compact(arr.Written(), arr.snapshotDeg, arr.deg)
    ensures forall k | 0 <= k < |out| :: out[k].idx >= 0
  {
    CompactMembers(arr.Written(), arr.snapshotDeg, arr.deg);
    forall k | 0 <= k < |out| ensures out[k].idx >= 0 {
      assert out[k] in arr.Written();
    }
  }

  method CopyAll(oldArr: WeightedEdgeArray, newArr: WeightedEdgeArray)
    requires oldArr.Valid() && newArr.edge != null && newArr.edge != oldArr.edge
    requires oldArr.physicalSize <= newArr.edge.Length
    modifies newArr.edge
    ensures newArr.edge[..oldArr.physicalSize] == oldArr.Written()
  {
    for i := 0 to oldArr.physicalSize
      invariant newArr.edge[..i] == oldArr.edge[..i]
      modifies newArr.edge
    {
      newArr.edge[i] := oldArr.edge[i];
    }
  }

  /** How many log records are visible at timestamp `t`: everything up to the last record stamped at most `t`, whatever the
      order of the stamps. */
  function VisibleCount(stamps: seq<int>, t: int): (n: nat)
    ensures n <= |stamps|
    ensures forall i | n <= i < |stamps| :: stamps[i] > t
    ensures n > 0 ==> stamps[n - 1] <= t
  {
    if stamps == [] then 0
    else if stamps[|stamps| - 1] <= t then |stamps|
    else VisibleCount(stamps[..|stamps| - 1], t)
  }

  /** The entries a reader at timestamp `t` adds to an output vector that held `input` on entry. */
  function ReadResult(edges: seq<Edge>, snapDeg: nat, visible: nat, input: seq<Edge>): seq<Edge>
    requires snapDeg <= visible <= |edges|
  {
    if visible > snapDeg then input + NewestFirst(edges[..visible], snapDeg) else edges[..snapDeg]
  }

  /** A read into an empty vector returns each live edge of the visible prefix once, with its newest weight. */
  lemma {:induction false} ReadIsReplay(edges: seq<Edge>, snapDeg: nat, visible: nat)
    requires snapDeg <= visible <= |edges| && IsSnapshot(edges[..snapDeg])
    ensures var r := ReadResult(edges, snapDeg, visible, []);
            IsSnapshot(r) && Replay(r) == Replay(edges[..visible])
  {
    var r := ReadResult(edges, snapDeg, visible, []);
    if visible > snapDeg {
      var shown := edges[..visible];
      assert shown[..snapDeg] == edges[..snapDeg];
      assert r == NewestFirst(shown, snapDeg);
      NewestFirstCorrect(shown, snapDeg);
    }
  }

  /** No record from the `n`th on is stamped at most `t`, and the one before it, if any, is: so every record stamped at most
      `t` is among the first `n`, and `n` is least with that property. */
  ghost predicate LastVisible(stamps: seq<int>, n: nat, t: int) {
    && n <= |stamps| && (forall i | n <= i < |stamps| :: stamps[i] > t) && (n > 0 ==> stamps[n - 1] <= t)
  }

  /** That decides the number. */
  lemma {:induction false} LastVisibleUnique(stamps: seq<int>, n: nat, t: int)
    requires LastVisible(stamps, n, t)
    ensures n == VisibleCount(stamps, t)
  {
    if stamps != [] && stamps[|stamps| - 1] > t {
      LastVisibleUnique(stamps[..|stamps| - 1], n, t);
    }
  }

  /** The same of the first `n` slots of an array: no log record from slot `n` on is stamped at most `t`, and the one in the
      slot before is, unless only the snapshot is left. */
  ghost predicate LastVisibleIn(arr: WeightedEdgeArray, n: nat, t: int)
    requires arr.Valid() && arr.timestamp != null
    reads arr, arr.edge, arr.timestamp
  {
    && arr.snapshotDeg <= n <= arr.physicalSize
    && (forall j | n - arr.snapshotDeg <= j < arr.physicalSize - arr.snapshotDeg :: arr.timestamp[j] > t)
    && (n > arr.snapshotDeg ==> arr.timestamp[n - 1 - arr.snapshotDeg] <= t)
  }

  ghost function Visible(arr: WeightedEdgeArray, t: int): (v: nat)
    requires arr.Valid()
    reads arr, arr.edge, arr.timestamp
    ensures arr.snapshotDeg <= v <= arr.physicalSize
  {
    if arr.timestamp == null then arr.physicalSize
    else arr.snapshotDeg + VisibleCount(arr.timestamp[..arr.physicalSize - arr.snapshotDeg], t)
  }

  method FindVisible(next: WeightedEdgeArray, t: int) returns (visible: nat)
    requires next.Valid()
    ensures visible == Visible(next, t)
    ensures next.timestamp != null ==> LastVisibleIn(next, visible, t)
  {
    visible := next.physicalSize;
    if next.timestamp != null {
      while visible > next.snapshotDeg && next.timestamp[visible - 1 - next.snapshotDeg] > t
        invariant next.snapshotDeg <= visible <= next.physicalSize
        invariant forall j | visible - next.snapshotDeg <= j < next.physicalSize - next.snapshotDeg :: next.timestamp[j] > t
      {
        visible := visible - 1;
      }
      ghost var stamps := next.timestamp[..next.physicalSize - next.snapshotDeg];
      LastVisibleUnique(stamps, visible - next.snapshotDeg, t);
    }
  }

  /** A read of one version at timestamp `t`; the bitmap is clean before and after. In a quiescent array every slot
      below `physicalSize` is written, so the bounded retry on an unwritten slot never iterates. */
  method GetNeighbours(next: WeightedEdgeArray, t: int, input: seq<Edge>, bitmap: SegmentedBitmap)
    returns (neighbours: seq<Edge>)
    requires next.Valid() && bitmap.Valid() && bitmap.bits == {}
    modifies bitmap
    ensures neighbours == ReadResult(next.Written(), next.snapshotDeg, Visible(next, t), input)
    ensures next.timestamp != null ==> LastVisibleIn(next, Visible(next, t), t)
    ensures bitmap.Valid() && bitmap.bits == {}
  {
    var cnt := next.physicalSize;
    if cnt > next.snapshotDeg {
      neighbours := input;
      cnt := FindVisible(next, t);
      if cnt == next.snapshotDeg {
        neighbours := next.edge[..cnt];
        assert neighbours == next.Written()[..cnt];
        cnt := 0;
      }
      neighbours := ScanTo(next, cnt, neighbours, bitmap);
      ClearSeen(next, cnt, bitmap);
      assert next.Written()[..cnt] == next.edge[..cnt];
    } else {
      neighbours := next.edge[..cnt];
      assert neighbours == next.Written()[..cnt];
    }
  }

  method ScanTo(next: WeightedEdgeArray, cnt: nat, input: seq<Edge>, bitmap: SegmentedBitmap)
    returns (neighbours: seq<Edge>)
    requires next.Valid() && cnt <= next.physicalSize && (cnt > 0 ==> next.snapshotDeg <= cnt)
    requires bitmap.Valid() && bitmap.bits == {}
    modifies bitmap
    ensures bitmap.Valid()
    ensures cnt == 0 ==> neighbours == input && bitmap.bits == {}
    ensures cnt > 0 ==> neighbours == input + NewestFirst(next.edge[..cnt], next.snapshotDeg)
    ensures cnt > 0 ==> bitmap.bits == Touched(next.edge[next.snapshotDeg..cnt])
  {
    neighbours := input;
    ghost var edges := next.edge[..cnt];
    ghost var snapDeg := next.snapshotDeg;
    var i := cnt;
    assert edges[cnt..] == [];
    while i > 0
      invariant 0 <= i <= cnt && (i > 0 ==> snapDeg <= cnt)
      invariant bitmap.Valid()
      invariant bitmap.bits == if cnt == 0 then {} else SeenFrom(edges, snapDeg, i)
      invariant cnt == 0 ==> neighbours == input
      invariant cnt > 0 ==>
                  neighbours + BackScan(edges, snapDeg, i, bitmap.bits) == input + NewestFirst(edges, snapDeg)
    {
      ghost var out, bits := neighbours, bitmap.bits;
      i := i - 1;
      var e := next.edge[i];
      assert e == edges[i];
      var seen := bitmap.GetBit(e.idx);
      if !seen {
        if e.weight != 0.0 {
          neighbours := neighbours + [e];
        }
        if i >= next.snapshotDeg {
          bitmap.SetBit(e.idx);
        }
      }
      ScanAdvance(edges, snapDeg, i + 1, e, out, bits, neighbours, bitmap.bits);
    }
    if cnt > 0 {
      assert neighbours + [] == neighbours;
      assert edges[snapDeg..] == next.edge[snapDeg..cnt];
    }
  }
}
