/** The per-thread bitmap of destinations already seen: bytes in segments, segments in a table that grows on demand. */
module Bitmaps {
  import opened MixedRadix

  // ----- Bytes -----

  predicate Bit(w: bv8, k: nat)
    requires k < 8
  {
    (w >> k) & 1 == 1
  }

  function Mask(k: nat): bv8
    requires k < 8
  {
    (1 as bv8) << k
  }

  lemma {:induction false} BitSet(w: bv8, i: nat, j: nat)
    requires i < 8 && j < 8
    ensures Bit(w | Mask(i), j) <==> i == j || Bit(w, j)
  {
    assert i == 0 || i == 1 || i == 2 || i == 3 || i == 4 || i == 5 || i == 6 || i == 7;
    assert j == 0 || j == 1 || j == 2 || j == 3 || j == 4 || j == 5 || j == 6 || j == 7;
  }

  lemma {:induction false} BitOfBoth(v: bv8, w: bv8, j: nat)
    requires j < 8
    ensures Bit(v & w, j) <==> Bit(v, j) && Bit(w, j)
  {
    assert j == 0 || j == 1 || j == 2 || j == 3 || j == 4 || j == 5 || j == 6 || j == 7;
  }

  lemma {:induction false} BitOfMask(i: nat, j: nat)
    requires i < 8 && j < 8
    ensures Bit(!Mask(i), j) <==> i != j
  {
    assert i == 0 || i == 1 || i == 2 || i == 3 || i == 4 || i == 5 || i == 6 || i == 7;
    assert j == 0 || j == 1 || j == 2 || j == 3 || j == 4 || j == 5 || j == 6 || j == 7;
  }

  lemma {:induction false} BitClear(w: bv8, i: nat, j: nat)
    requires i < 8 && j < 8
    ensures Bit(w & !Mask(i), j) <==> i != j && Bit(w, j)
  {
    BitOfBoth(w, !Mask(i), j);
    BitOfMask(i, j);
  }

  // ----- One segment -----

  /** A fixed number of bits, eight to a byte. */
  datatype AtomicBitmap = AtomicBitmap(words: seq<bv8>)
  {
    /** Room for `n` bits. */
    predicate Fits(n: nat) {
      |words| == (n + 7) / 8
    }

    predicate Get(pos: nat)
      requires pos / 8 < |words|
    {
      Bit(words[pos / 8], pos % 8)
    }

    function Set(pos: nat): AtomicBitmap
      requires pos / 8 < |words|
    {
      AtomicBitmap(words[pos / 8 := words[pos / 8] | Mask(pos % 8)])
    }

    function Clear(pos: nat): AtomicBitmap
      requires pos / 8 < |words|
    {
      AtomicBitmap(words[pos / 8 := words[pos / 8] & !Mask(pos % 8)])
    }
  }

  function NoBits(n: nat): (b: AtomicBitmap)
    ensures b.Fits(n) && forall pos: nat | pos / 8 < |b.words| :: !b.Get(pos)
  {
    AtomicBitmap(seq((n + 7) / 8, _ => 0))
  }

  lemma {:induction false} SetGet(b: AtomicBitmap, pos: nat, q: nat)
    requires pos / 8 < |b.words| && q / 8 < |b.words|
    ensures b.Set(pos).Get(q) <==> q == pos || b.Get(q)
  {
    ByteOf(pos, q);
    BitSet(b.words[pos / 8], pos % 8, q % 8);
  }

  lemma {:induction false} ClearGet(b: AtomicBitmap, pos: nat, q: nat)
    requires pos / 8 < |b.words| && q / 8 < |b.words|
    ensures b.Clear(pos).Get(q) <==> q != pos && b.Get(q)
  {
    ByteOf(pos, q);
    BitClear(b.words[pos / 8], pos % 8, q % 8);
  }

  lemma {:induction false} ByteOf(p: nat, q: nat)
    ensures p == q <==> p / 8 == q / 8 && p % 8 == q % 8
    ensures p % 8 < 8 && q % 8 < 8
  {
  }

  // ----- The table of segments -----

  /** The segment of bit `pos`, and the place of the bit in it. */
  function Seg(pos: nat, size: nat): nat
    requires size > 0
  {
    pos / size
  }

  function Off(pos: nat, size: nat): (o: nat)
    requires size > 0
    ensures o < size
  {
    pos % size
  }

  function Span(n: nat, size: nat): nat {
    n * size
  }

  lemma {:induction false} InRange(pos: nat, size: nat, n: nat)
    requires size > 0
    ensures pos < Span(n, size) <==> Seg(pos, size) < n
  {
    var q, r := pos / size, pos % size;
    DivMod(pos, size);
    if q < n {
      assert (q + 1) * size <= n * size;
    } else {
      assert q * size >= n * size;
    }
  }

  lemma {:induction false} SamePlace(p: nat, q: nat, size: nat)
    requires size > 0 && Seg(p, size) == Seg(q, size) && Off(p, size) == Off(q, size)
    ensures p == q
  {
    DivMod(p, size);
    DivMod(q, size);
  }

  /** What the program computes as the new number of segments reaches just one segment past the one before `pos`. */
  lemma {:induction false} OneSegmentMore(pos: nat, size: nat)
    requires size > 0
    ensures (pos + size) / size == Seg(pos, size) + 1
  {
    DivMod(pos, size);
    assert pos + size == (pos / size + 1) * size + pos % size;
    Split(pos / size + 1, size, pos % size);
  }

  ghost predicate Sized(segments: seq<AtomicBitmap>, size: nat) {
    size > 0 && forall i | 0 <= i < |segments| :: segments[i].Fits(size)
  }

  /** Whether the bit at `off` of segment `seg` is set; bits beyond the last segment are not. */
  ghost predicate IsSet(segments: seq<AtomicBitmap>, size: nat, seg: nat, off: nat)
    requires Sized(segments, size) && off < size
  {
    seg < |segments| && segments[seg].Get(off)
  }

  /** The segments hold exactly the set `bits`. */
  ghost predicate Holds(segments: seq<AtomicBitmap>, size: nat, bits: set<int>) {
    Sized(segments, size) && forall p {:trigger BitOk(segments, size, bits, p)} :: BitOk(segments, size, bits, p)
  }

  ghost predicate BitOk(segments: seq<AtomicBitmap>, size: nat, bits: set<int>, p: int)
    requires Sized(segments, size)
  {
    p in bits <==> p >= 0 && IsSet(segments, size, Seg(p, size), Off(p, size))
  }

  lemma {:induction false} HoldsNone(size: nat, n: nat)
    requires size > 0
    ensures Holds(Empty(size, n), size, {})
  {
  }

  function Empty(size: nat, n: nat): (segments: seq<AtomicBitmap>)
    ensures |segments| == n && forall i | 0 <= i < n :: segments[i] == NoBits(size)
  {
    seq(n, _ => NoBits(size))
  }

  /** Fresh segments set no bit. */
  lemma {:induction false} HoldsLonger(segments: seq<AtomicBitmap>, size: nat, bits: set<int>, more: nat)
    requires Holds(segments, size, bits)
    ensures Holds(segments + Empty(size, more), size, bits)
  {
    var longer := segments + Empty(size, more);
    forall p ensures BitOk(longer, size, bits, p) {
      assert BitOk(segments, size, bits, p);
    }
  }

  /** Segment `seg` with bit `off` given a value. */
  function Assigned(b: AtomicBitmap, off: nat, value: bool): AtomicBitmap
    requires off / 8 < |b.words|
  {
    if value then b.Set(off) else b.Clear(off)
  }

  lemma {:induction false} AssignedGet(b: AtomicBitmap, off: nat, value: bool, q: nat)
    requires off / 8 < |b.words| && q / 8 < |b.words|
    ensures Assigned(b, off, value).Get(q) <==> if q == off then value else b.Get(q)
  {
    if value {
      SetGet(b, off, q);
    } else {
      ClearGet(b, off, q);
    }
  }

  lemma {:induction false} IsSetAssigned(segments: seq<AtomicBitmap>, size: nat, seg: nat, off: nat, b: AtomicBitmap,
                                         value: bool, seg': nat, off': nat)
    requires Sized(segments, size) && off < size && off' < size && seg < |segments|
    requires b == Assigned(segments[seg], off, value)
    ensures Sized(segments[seg := b], size)
    ensures IsSet(segments[seg := b], size, seg', off')
       <==> if seg' == seg && off' == off then value else IsSet(segments, size, seg', off')
  {
    AssignedGet(segments[seg], off, value, off');
  }

  lemma {:induction false} HoldsAssigned(segments: seq<AtomicBitmap>, size: nat, bits: set<int>, pos: nat, b: AtomicBitmap,
                                         value: bool)
    requires Holds(segments, size, bits) && Seg(pos, size) < |segments|
    requires b == Assigned(segments[Seg(pos, size)], Off(pos, size), value)
    ensures Holds(segments[Seg(pos, size) := b], size, if value then bits + {pos} else bits - {pos})
  {
    var after := segments[Seg(pos, size) := b];
    var bits' := if value then bits + {pos} else bits - {pos};
    IsSetAssigned(segments, size, Seg(pos, size), Off(pos, size), b, value, 0, 0);
    forall p ensures BitOk(after, size, bits', p) {
      assert BitOk(segments, size, bits, p);
      if p >= 0 {
        IsSetAssigned(segments, size, Seg(pos, size), Off(pos, size), b, value, Seg(p, size), Off(p, size));
        if Seg(p, size) == Seg(pos, size) && Off(p, size) == Off(pos, size) {
          SamePlace(p, pos, size);
        }
      }
    }
  }

  /** A bitmap that grows by whole segments when a bit beyond its end is set. `bits` is the set it represents. */
  class SegmentedBitmap {
    const segmentSize: nat
    var segments: seq<AtomicBitmap>
    var currentSize: nat
    ghost var bits: set<int>

    ghost predicate Valid()
      reads this
    {
      Holds(segments, segmentSize, bits) && currentSize == Span(|segments|, segmentSize)
    }

    constructor (segSize: nat, n: nat)
      requires segSize > 0
      ensures Valid() && bits == {}
    {
      var numSegments := (n + segSize - 1) / segSize;
      segmentSize := segSize;
      segments := Empty(segSize, numSegments);
      currentSize := Span(numSegments, segSize);
      bits := {};
      HoldsNone(segSize, numSegments);
    }

    method SetBit(pos: nat)
      requires Valid()
      modifies this
      ensures Valid() && bits == old(bits) + {pos}
    {
      InRange(pos, segmentSize, |segments|);
      if pos >= currentSize {
        var numSegments := (pos + segmentSize) / segmentSize;
        OneSegmentMore(pos, segmentSize);
        HoldsLonger(segments, segmentSize, bits, numSegments - |segments|);
        segments := segments + Empty(segmentSize, numSegments - |segments|);
        currentSize := Span(numSegments, segmentSize);
      }
      Assign(Seg(pos, segmentSize), Off(pos, segmentSize), true, pos);
    }

    method ClearBit(pos: nat)
      requires Valid()
      modifies this
      ensures Valid() && bits == old(bits) - {pos}
    {
      InRange(pos, segmentSize, |segments|);
      assert BitOk(segments, segmentSize, bits, pos);
      if pos >= currentSize {
        return;
      }
      Assign(Seg(pos, segmentSize), Off(pos, segmentSize), false, pos);
    }

    /** Writes one bit of one segment. */
    method Assign(seg: nat, off: nat, value: bool, ghost pos: nat)
      requires Valid() && seg < |segments| && seg == Seg(pos, segmentSize) && off == Off(pos, segmentSize)
      modifies this`segments, this`bits
      ensures Valid() && bits == if value then old(bits) + {pos} else old(bits) - {pos}
    {
      var b := Assigned(segments[seg], off, value);
      HoldsAssigned(segments, segmentSize, bits, pos, b, value);
      segments := segments[seg := b];
      bits := if value then bits + {pos} else bits - {pos};
    }

    method GetBit(pos: nat) returns (b: bool)
      requires Valid()
      ensures b <==> pos in bits
    {
      InRange(pos, segmentSize, |segments|);
      assert BitOk(segments, segmentSize, bits, pos);
      if pos >= currentSize {
        return false;
      }
      b := segments[Seg(pos, segmentSize)].Get(Off(pos, segmentSize));
    }

    /** Zeroes every byte. */
    method Reset()
      requires Valid()
      modifies this
      ensures Valid() && bits == {}
    {
      HoldsNone(segmentSize, |segments|);
      segments := Empty(segmentSize, |segments|);
      bits := {};
    }
  }
}
