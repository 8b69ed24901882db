/** Sizes of finite sets of numbers. */
module FiniteSets {

  function Upto(m: nat): (s: set<nat>)
    ensures |s| == m && forall i: nat :: i in s <==> i < m
  {
    if m == 0 then {} else Upto(m - 1) + {m - 1}
  }

  function Image(f: seq<nat>): set<nat> {
    set x | x in f
  }

  lemma {:induction false} ImageSize(f: seq<nat>)
    requires forall i, j | 0 <= i < j < |f| :: f[i] != f[j]
    ensures |Image(f)| == |f|
  {
    if f == [] {
      assert Image(f) == {};
    } else {
      var init, last := f[..|f| - 1], f[|f| - 1];
      ImageSize(init);
      assert Image(f) == Image(init) + {last};
    }
  }

  lemma {:induction false} SubsetSize<T>(a: set<T>, b: set<T>)
    requires a <= b
    ensures |a| <= |b|
  {
    if a != {} {
      var x :| x in a;
      SubsetSize(a - {x}, b - {x});
    }
  }

  /** A proper subset is smaller. */
  lemma {:induction false} ProperSubsetSize<T>(a: set<T>, b: set<T>, x: T)
    requires a <= b && x in b && x !in a
    ensures |a| < |b|
  {
    SubsetSize(a, b - {x});
  }

  /** An injection between initial segments cannot shrink. */
  lemma {:induction false} Pigeonhole(f: seq<nat>, m: nat)
    requires forall i | 0 <= i < |f| :: f[i] < m
    requires forall i, j | 0 <= i < j < |f| :: f[i] != f[j]
    ensures |f| <= m
  {
    ImageSize(f);
    SubsetSize(Image(f), Upto(m));
  }
}
