/** What the optimizer's costs mean: expected sizes of the radix tree.

    All ways to draw `n` ids below `u` in order are listed, without or with repetition. Summed over the draws without
    repetition, the sizes of the trees that hold the drawn ids are the optimizer's exact cost times the number of draws; the
    estimate counts the draws with repetition in the same way. */
module ExpectedSize {
  import opened MixedRadix
  import opened FiniteSets
  import opened RadixTree
  import opened FanoutOptimizer

  // ----- All draws -----

  /** `s` followed by each number below `m`, or by each that is not in `s` yet. */
  function Extended(s: seq<nat>, m: nat, again: bool): seq<seq<nat>> {
    if m == 0 then []
    else Extended(s, m - 1, again) + (if again || m - 1 !in s then [s + [m - 1]] else [])
  }

  function AllExtended(ss: seq<seq<nat>>, u: nat, again: bool): seq<seq<nat>> {
    if ss == [] then [] else AllExtended(ss[..|ss| - 1], u, again) + Extended(ss[|ss| - 1], u, again)
  }

  /** The ordered draws of `n` numbers below `u`, with repetition if `again`. */
  function Draws(u: nat, n: nat, again: bool): seq<seq<nat>> {
    if n == 0 then [[]] else AllExtended(Draws(u, n - 1, again), u, again)
  }

  ghost predicate IsDraw(u: nat, n: nat, again: bool, s: seq<nat>) {
    && |s| == n && (forall x | x in s :: x < u)
    && (again || forall i, j | 0 <= i < j < |s| :: s[i] != s[j])
  }

  lemma {:induction false} InExtended(s: seq<nat>, m: nat, again: bool, r: seq<nat>)
    ensures r in Extended(s, m, again) <==>
            |r| == |s| + 1 && r[..|s|] == s && r[|s|] < m && (again || r[|s|] !in s)
  {
    if m > 0 {
      InExtended(s, m - 1, again, r);
      assert (s + [m - 1])[..|s|] == s;
      if |r| == |s| + 1 && r[..|s|] == s && r[|s|] == m - 1 {
        assert r == s + [m - 1];
      }
    }
  }

  ghost predicate Long(ss: seq<seq<nat>>, k: nat) {
    forall i | 0 <= i < |ss| :: |ss[i]| == k
  }

  lemma {:induction false} InAllExtended(ss: seq<seq<nat>>, u: nat, again: bool, k: nat, r: seq<nat>)
    requires Long(ss, k)
    ensures r in AllExtended(ss, u, again) <==>
            |r| == k + 1 && r[..k] in ss && r[k] < u && (again || r[k] !in r[..k])
  {
    if ss != [] {
      InAllExtended(ss[..|ss| - 1], u, again, k, r);
      InExtended(ss[|ss| - 1], u, again, r);
      assert ss == ss[..|ss| - 1] + [ss[|ss| - 1]];
    }
  }

  lemma {:induction false} DrawsLong(u: nat, n: nat, again: bool)
    ensures Long(Draws(u, n, again), n)
  {
    if n > 0 {
      DrawsLong(u, n - 1, again);
      var ss := Draws(u, n, again);
      forall i | 0 <= i < |ss| ensures |ss[i]| == n {
        InAllExtended(Draws(u, n - 1, again), u, again, n - 1, ss[i]);
        assert ss[i] in ss;
      }
    }
  }

  lemma {:induction false} DrawInit(u: nat, n: nat, again: bool, r: seq<nat>)
    requires |r| == n > 0
    ensures IsDraw(u, n, again, r) <==>
            IsDraw(u, n - 1, again, r[..n - 1]) && r[n - 1] < u && (again || r[n - 1] !in r[..n - 1])
  {
    var init := r[..n - 1];
    assert r == init + [r[n - 1]];
    assert r[n - 1] in r;
    assert forall x :: x in r <==> x in init || x == r[n - 1];
    assert forall i | 0 <= i < n - 1 :: init[i] == r[i];
    if !again && IsDraw(u, n - 1, again, init) && r[n - 1] !in init {
      forall i, j | 0 <= i < j < |r| ensures r[i] != r[j] {
        assert r[i] == init[i] && (j < n - 1 ==> r[j] == init[j]);
        assert init[i] in init;
      }
    }
  }

  lemma {:induction false} InDraws(u: nat, n: nat, again: bool, r: seq<nat>)
    requires n > 0
    ensures r in Draws(u, n, again) <==>
            |r| == n && r[..n - 1] in Draws(u, n - 1, again) && r[n - 1] < u && (again || r[n - 1] !in r[..n - 1])
  {
    DrawsLong(u, n - 1, again);
    InAllExtended(Draws(u, n - 1, again), u, again, n - 1, r);
  }

  /** Draws one number at a time. */
  ghost predicate Drawn(u: nat, n: nat, again: bool, s: seq<nat>) {
    |s| == n
    && (n == 0 || (Drawn(u, n - 1, again, s[..n - 1]) && s[n - 1] < u && (again || s[n - 1] !in s[..n - 1])))
  }

  lemma {:induction false} DrawnIsDraw(u: nat, n: nat, again: bool, s: seq<nat>)
    ensures Drawn(u, n, again, s) <==> IsDraw(u, n, again, s)
  {
    if |s| == n > 0 {
      DrawnIsDraw(u, n - 1, again, s[..n - 1]);
      DrawInit(u, n, again, s);
    }
  }

  lemma {:induction false} DrawsDrawn(u: nat, n: nat, again: bool, r: seq<nat>)
    ensures r in Draws(u, n, again) <==> Drawn(u, n, again, r)
  {
    if n > 0 {
      InDraws(u, n, again, r);
      if |r| == n {
        DrawsDrawn(u, n - 1, again, r[..n - 1]);
      }
    }
  }

  /** The list holds exactly the draws. */
  lemma {:induction false} DrawsComplete(u: nat, n: nat, again: bool, r: seq<nat>)
    ensures r in Draws(u, n, again) <==> IsDraw(u, n, again, r)
  {
    DrawsDrawn(u, n, again, r);
    DrawnIsDraw(u, n, again, r);
  }

  ghost predicate DrawsOf(ss: seq<seq<nat>>, u: nat, n: nat, again: bool) {
    forall i | 0 <= i < |ss| :: IsDraw(u, n, again, ss[i])
  }

  lemma {:induction false} AllDraws(u: nat, n: nat, again: bool)
    ensures DrawsOf(Draws(u, n, again), u, n, again)
  {
    var ss := Draws(u, n, again);
    forall i | 0 <= i < |ss| ensures IsDraw(u, n, again, ss[i]) {
      DrawsComplete(u, n, again, ss[i]);
      assert ss[i] in ss;
    }
  }

  ghost predicate Distinct(ss: seq<seq<nat>>) {
    forall i, j | 0 <= i < j < |ss| :: ss[i] != ss[j]
  }

  lemma {:induction false} DistinctConcat(a: seq<seq<nat>>, b: seq<seq<nat>>)
    requires Distinct(a) && Distinct(b) && forall r | r in a :: r !in b
    ensures Distinct(a + b)
  {
    forall i, j | 0 <= i < j < |a + b| ensures (a + b)[i] != (a + b)[j] {
      if i < |a| <= j {
        assert a[i] in a && b[j - |a|] in b;
      }
    }
  }

  lemma {:induction false} ExtendedDistinct(s: seq<nat>, m: nat, again: bool)
    ensures Distinct(Extended(s, m, again))
  {
    if m > 0 {
      var last: seq<seq<nat>> := if again || m - 1 !in s then [s + [m - 1]] else [];
      ExtendedDistinct(s, m - 1, again);
      forall r | r in Extended(s, m - 1, again) ensures r !in last {
        InExtended(s, m - 1, again, r);
      }
      DistinctConcat(Extended(s, m - 1, again), last);
    }
  }

  lemma {:induction false} AllExtendedDistinct(ss: seq<seq<nat>>, u: nat, again: bool, k: nat)
    requires Distinct(ss) && Long(ss, k)
    ensures Distinct(AllExtended(ss, u, again))
  {
    if ss != [] {
      var init, last := ss[..|ss| - 1], ss[|ss| - 1];
      AllExtendedDistinct(init, u, again, k);
      ExtendedDistinct(last, u, again);
      forall r | r in AllExtended(init, u, again) ensures r !in Extended(last, u, again) {
        InAllExtended(init, u, again, k, r);
        InExtended(last, u, again, r);
        assert forall i | 0 <= i < |init| :: init[i] == ss[i];
      }
      DistinctConcat(AllExtended(init, u, again), Extended(last, u, again));
    }
  }

  /** And each of them once. */
  lemma {:induction false} DrawsDistinct(u: nat, n: nat, again: bool)
    ensures Distinct(Draws(u, n, again))
  {
    if n > 0 {
      DrawsDistinct(u, n - 1, again);
      DrawsLong(u, n - 1, again);
      AllExtendedDistinct(Draws(u, n - 1, again), u, again, n - 1);
    }
  }

  // ----- Draws that avoid a block -----

  ghost predicate Avoids(s: seq<nat>, lo: nat, hi: nat) {
    forall x | x in s :: !(lo <= x < hi)
  }

  ghost function CountAvoid(ss: seq<seq<nat>>, lo: nat, hi: nat): nat {
    if ss == [] then 0
    else CountAvoid(ss[..|ss| - 1], lo, hi) + (if Avoids(ss[|ss| - 1], lo, hi) then 1 else 0)
  }

  lemma {:induction false} CountAvoidConcat(a: seq<seq<nat>>, b: seq<seq<nat>>, lo: nat, hi: nat)
    ensures CountAvoid(a + b, lo, hi) == CountAvoid(a, lo, hi) + CountAvoid(b, lo, hi)
  {
    if b == [] {
      assert a + b == a;
    } else {
      assert (a + b)[..|a + b| - 1] == a + b[..|b| - 1];
      CountAvoidConcat(a, b[..|b| - 1], lo, hi);
    }
  }

  /** The numbers below `m` that may follow `s` without touching the block. */
  ghost function Fresh(s: seq<nat>, m: nat, again: bool, lo: nat, hi: nat): set<nat> {
    set x: nat | x < m && (again || x !in s) && !(lo <= x < hi)
  }

  lemma {:induction false} ExtendedAvoid(s: seq<nat>, m: nat, again: bool, lo: nat, hi: nat)
    ensures CountAvoid(Extended(s, m, again), lo, hi) == if Avoids(s, lo, hi) then |Fresh(s, m, again, lo, hi)| else 0
  {
    if m == 0 {
      assert Fresh(s, 0, again, lo, hi) == {};
    } else {
      var last: seq<seq<nat>> := if again || m - 1 !in s then [s + [m - 1]] else [];
      ExtendedAvoid(s, m - 1, again, lo, hi);
      CountAvoidConcat(Extended(s, m - 1, again), last, lo, hi);
      FreshNext(s, m, again, lo, hi);
      OneAvoids(s, m - 1, lo, hi);
    }
  }

  lemma {:induction false} FreshNext(s: seq<nat>, m: nat, again: bool, lo: nat, hi: nat)
    requires m > 0
    ensures |Fresh(s, m, again, lo, hi)|
         == |Fresh(s, m - 1, again, lo, hi)| + (if (again || m - 1 !in s) && !(lo <= m - 1 < hi) then 1 else 0)
  {
    var rest := Fresh(s, m - 1, again, lo, hi);
    if (again || m - 1 !in s) && !(lo <= m - 1 < hi) {
      assert Fresh(s, m, again, lo, hi) == rest + {m - 1};
    } else {
      assert Fresh(s, m, again, lo, hi) == rest;
    }
  }

  lemma {:induction false} OneAvoids(s: seq<nat>, x: nat, lo: nat, hi: nat)
    ensures CountAvoid([s + [x]], lo, hi) == if Avoids(s, lo, hi) && !(lo <= x < hi) then 1 else 0
    ensures CountAvoid([], lo, hi) == 0
  {
    assert [s + [x]][..0] == [];
    assert x in s + [x];
    if Avoids(s + [x], lo, hi) {
      forall y | y in s ensures !(lo <= y < hi) {
        assert y in s + [x];
      }
    }
  }

  function Interval(lo: nat, d: nat): (b: set<nat>)
    ensures |b| == d && forall x: nat :: x in b <==> lo <= x < lo + d
  {
    if d == 0 then {} else Interval(lo, d - 1) + {lo + d - 1}
  }

  /** How many of them there are. */
  lemma {:induction false} FreshSize(s: seq<nat>, u: nat, k: nat, again: bool, lo: nat, d: nat)
    requires IsDraw(u, k, again, s) && Avoids(s, lo, lo + d) && lo + d <= u
    ensures |Fresh(s, u, again, lo, lo + d)| == u - d - (if again then 0 else k)
  {
    var all, block := Upto(u), Interval(lo, d);
    assert all * block == block;
    if again {
      assert Fresh(s, u, again, lo, lo + d) == all - block;
    } else {
      ImageSize(s);
      assert (all - block) * Image(s) == Image(s);
      assert Fresh(s, u, again, lo, lo + d) == all - block - Image(s);
    }
  }

  lemma {:induction false} LastExtendedAvoid(ss: seq<seq<nat>>, u: nat, k: nat, again: bool, lo: nat, d: nat, each: int)
    requires ss != [] && lo + d <= u && IsDraw(u, k, again, ss[|ss| - 1]) && each == u - d - (if again then 0 else k)
    ensures CountAvoid(AllExtended(ss, u, again), lo, lo + d)
         == CountAvoid(AllExtended(ss[..|ss| - 1], u, again), lo, lo + d)
            + (if Avoids(ss[|ss| - 1], lo, lo + d) then each else 0)
  {
    var init, last := ss[..|ss| - 1], ss[|ss| - 1];
    CountAvoidConcat(AllExtended(init, u, again), Extended(last, u, again), lo, lo + d);
    ExtendedAvoid(last, u, again, lo, lo + d);
    if Avoids(last, lo, lo + d) {
      FreshSize(last, u, k, again, lo, d);
    }
  }

  lemma {:induction false} AllExtendedAvoid(ss: seq<seq<nat>>, u: nat, k: nat, again: bool, lo: nat, d: nat, each: int)
    requires lo + d <= u && DrawsOf(ss, u, k, again) && each == u - d - (if again then 0 else k)
    ensures CountAvoid(AllExtended(ss, u, again), lo, lo + d) == CountAvoid(ss, lo, lo + d) * each
  {
    if ss != [] {
      AllExtendedAvoid(ss[..|ss| - 1], u, k, again, lo, d, each);
      LastExtendedAvoid(ss, u, k, again, lo, d, each);
      OneMore(CountAvoid(ss[..|ss| - 1], lo, lo + d), each);
    }
  }

  lemma {:induction false} OneMore(a: int, b: int)
    ensures (a + 1) * b == a * b + b
  {
  }

  /** The number of draws of `n` out of `v` numbers. */
  function Number(v: int, n: nat, again: bool): real {
    if again then Pow(v as real, n) else Samples(v, n)
  }

  lemma {:induction false} NumberAgain(v: int, n: nat)
    ensures Number(v, n, true) == Pow(v as real, n)
  {
  }

  lemma {:induction false} NumberNext(v: int, n: nat, again: bool, count: int, next: int)
    requires n > 0 && count as real == Number(v, n - 1, again) && next == count * (v - (if again then 0 else n - 1))
    ensures next as real == Number(v, n, again)
  {
    var each := v - (if again then 0 else n - 1);
    assert (count * each) as real == count as real * each as real;
  }

  lemma {:induction false} NoDraws(u: nat, again: bool, lo: nat, hi: nat)
    ensures CountAvoid(Draws(u, 0, again), lo, hi) == 1
  {
    var none: seq<seq<nat>> := [[]];
    assert none[..0] == [] && none[0] == [];
    assert Avoids([], lo, hi);
    assert Draws(u, 0, again) == none;
  }

  lemma {:induction false} DrawsAvoidNext(u: nat, n: nat, again: bool, lo: nat, d: nat)
    requires lo + d <= u && n > 0
    ensures CountAvoid(Draws(u, n, again), lo, lo + d)
         == CountAvoid(Draws(u, n - 1, again), lo, lo + d) * (u - d - (if again then 0 else n - 1))
  {
    AllDraws(u, n - 1, again);
    AllExtendedAvoid(Draws(u, n - 1, again), u, n - 1, again, lo, d, u - d - (if again then 0 else n - 1));
  }

  /** The draws that avoid a block of `d` numbers are the draws from what is left. */
  lemma {:induction false} DrawsAvoid(u: nat, n: nat, again: bool, lo: nat, d: nat)
    requires lo + d <= u
    ensures CountAvoid(Draws(u, n, again), lo, lo + d) as real == Number(u - d, n, again)
  {
    if n == 0 {
      NoDraws(u, again, lo, lo + d);
    } else {
      DrawsAvoid(u, n - 1, again, lo, d);
      DrawsAvoidNext(u, n, again, lo, d);
      NumberNext(u - d, n, again, CountAvoid(Draws(u, n - 1, again), lo, lo + d), CountAvoid(Draws(u, n, again), lo, lo + d));
    }
  }

  lemma {:induction false} AllAvoidNothing(ss: seq<seq<nat>>)
    ensures CountAvoid(ss, 0, 0) == |ss|
  {
    if ss != [] {
      AllAvoidNothing(ss[..|ss| - 1]);
    }
  }

  lemma {:induction false} DrawsNumber(u: nat, n: nat, again: bool)
    ensures |Draws(u, n, again)| as real == Number(u, n, again)
  {
    DrawsAvoid(u, n, again, 0, 0);
    AllAvoidNothing(Draws(u, n, again));
  }

  // ----- Blocks touched, summed over draws and over blocks -----

  /** The blocks of `d` numbers, out of the first `m`, that `s` touches. */
  ghost function Touching(s: seq<nat>, d: nat, m: nat): set<nat> {
    set c: nat | c < m && !Avoids(s, c * d, c * d + d)
  }

  ghost function SumTouching(ss: seq<seq<nat>>, d: nat, m: nat): nat {
    if ss == [] then 0 else SumTouching(ss[..|ss| - 1], d, m) + |Touching(ss[|ss| - 1], d, m)|
  }

  lemma {:induction false} TouchingNext(s: seq<nat>, d: nat, m: nat)
    ensures |Touching(s, d, m + 1)| == |Touching(s, d, m)| + (if Avoids(s, m * d, m * d + d) then 0 else 1)
  {
    if Avoids(s, m * d, m * d + d) {
      assert Touching(s, d, m + 1) == Touching(s, d, m);
    } else {
      assert Touching(s, d, m + 1) == Touching(s, d, m) + {m};
    }
  }

  /** One block more is touched by all draws that do not avoid it. */
  lemma {:induction false} SumTouchingNext(ss: seq<seq<nat>>, d: nat, m: nat, lo: nat)
    requires lo == m * d
    ensures SumTouching(ss, d, m + 1) == SumTouching(ss, d, m) + |ss| - CountAvoid(ss, lo, lo + d)
  {
    if ss != [] {
      SumTouchingNext(ss[..|ss| - 1], d, m, lo);
      TouchingNext(ss[|ss| - 1], d, m);
    }
  }

  lemma {:induction false} SumTouchingNone(ss: seq<seq<nat>>, d: nat)
    ensures SumTouching(ss, d, 0) == 0
  {
    if ss != [] {
      SumTouchingNone(ss[..|ss| - 1], d);
      assert Touching(ss[|ss| - 1], d, 0) == {};
    }
  }

  /** `m` blocks, each touched by all but `left` of `number` draws. */
  function Spread(m: nat, number: real, left: real): real {
    m as real * (number - left)
  }

  lemma {:induction false} SpreadNext(m: nat, number: real, left: real)
    ensures Spread(m + 1, number, left) == Spread(m, number, left) + number - left
    ensures Spread(0, number, left) == 0.0
  {
  }

  lemma {:induction false} BlockEnd(m: nat, d: nat, u: nat)
    requires (m + 1) * d <= u
    ensures m * d + d <= u && m * d <= u
  {
  }

  lemma {:induction false} OneBlockTouched(u: nat, n: nat, again: bool, d: nat, m: nat, lo: nat)
    requires lo == m * d && lo + d <= u
    ensures SumTouching(Draws(u, n, again), d, m + 1) as real
         == SumTouching(Draws(u, n, again), d, m) as real + Number(u, n, again) - Number(u - d, n, again)
  {
    SumTouchingNext(Draws(u, n, again), d, m, lo);
    DrawsNumber(u, n, again);
    DrawsAvoid(u, n, again, lo, d);
  }

  lemma {:induction false} DrawsTouching(u: nat, n: nat, again: bool, d: nat, m: nat)
    requires m * d <= u && d <= u
    ensures SumTouching(Draws(u, n, again), d, m) as real == Spread(m, Number(u, n, again), Number(u - d, n, again))
  {
    if m == 0 {
      SumTouchingNone(Draws(u, n, again), d);
      SpreadNext(0, Number(u, n, again), Number(u - d, n, again));
    } else {
      BlockEnd(m - 1, d, u);
      DrawsTouching(u, n, again, d, m - 1);
      OneBlockTouched(u, n, again, d, m - 1, (m - 1) * d);
      SpreadNext(m - 1, Number(u, n, again), Number(u - d, n, again));
    }
  }

  // ----- Prefixes are blocks -----

  lemma {:induction false} InBlock(x: nat, c: nat, d: nat)
    requires d > 0
    ensures x / d == c <==> c * d <= x < c * d + d
  {
    DivMod(x, d);
    if c * d <= x < c * d + d {
      assert x == c * d + (x - c * d);
      Split(c, d, x - c * d);
    }
  }

  lemma {:induction false} PrefixIsBlock(ws: seq<nat>, i: nat, x: nat)
    requires i <= |ws| && x < Pow2(Total(ws))
    ensures Prefix(ws, i, x) == x / Pow2(Suf(ws, i)) && Prefix(ws, i, x) < Pow2(Pre(ws, i))
  {
    ModShrinks(x, Pow2(Total(ws)));
    TotalSplit(ws, i);
    InBlock(x, x / Pow2(Suf(ws, i)), Pow2(Suf(ws, i)));
    Below(x / Pow2(Suf(ws, i)), Pow2(Suf(ws, i)), Pow2(Pre(ws, i)));
  }

  lemma {:induction false} Below(q: nat, d: nat, m: nat)
    requires q * d < m * d
    ensures q < m
  {
    assert q >= m ==> q * d >= m * d;
  }

  lemma {:induction false} PrefixesAreBlocks(ws: seq<nat>, i: nat, s: seq<nat>)
    requires i <= |ws| && forall x | x in s :: x < Pow2(Total(ws))
    ensures PrefixSet(ws, s, i) == Touching(s, Pow2(Suf(ws, i)), Pow2(Pre(ws, i)))
  {
    var d := Pow2(Suf(ws, i));
    forall c | c in PrefixSet(ws, s, i) ensures c in Touching(s, d, Pow2(Pre(ws, i))) {
      var v :| 0 <= v < |s| && Prefix(ws, i, s[v]) == c;
      assert s[v] in s;
      PrefixIsBlock(ws, i, s[v]);
      InBlock(s[v], c, d);
    }
    forall c | c in Touching(s, d, Pow2(Pre(ws, i))) ensures c in PrefixSet(ws, s, i) {
      var x :| x in s && c * d <= x < c * d + d;
      PrefixIsBlock(ws, i, x);
      InBlock(x, c, d);
      var v :| 0 <= v < |s| && s[v] == x;
    }
  }

  /** Distinct prefixes at level `i`, summed over a list of id lists. */
  ghost function SumPrefixes(ws: seq<nat>, i: nat, ss: seq<seq<nat>>): nat
    requires i <= |ws|
  {
    if ss == [] then 0 else SumPrefixes(ws, i, ss[..|ss| - 1]) + |PrefixSet(ws, ss[|ss| - 1], i)|
  }

  lemma {:induction false} SumPrefixesTouching(ws: seq<nat>, i: nat, ss: seq<seq<nat>>, n: nat, again: bool)
    requires i <= |ws| && DrawsOf(ss, Pow2(Total(ws)), n, again)
    ensures SumPrefixes(ws, i, ss) == SumTouching(ss, Pow2(Suf(ws, i)), Pow2(Pre(ws, i)))
  {
    if ss != [] {
      SumPrefixesTouching(ws, i, ss[..|ss| - 1], n, again);
      PrefixesAreBlocks(ws, i, ss[|ss| - 1]);
    }
  }

  /** Summed over all draws, the distinct prefixes of a level are its prefixes times the draws that do not avoid one. */
  lemma {:induction false} DrawsPrefixes(ws: seq<nat>, i: nat, n: nat, again: bool, u: nat, d: nat, m: nat)
    requires i <= |ws| && u == Pow2(Total(ws)) && d == Pow2(Suf(ws, i)) && m == Pow2(Pre(ws, i))
    ensures d <= u
    ensures SumPrefixes(ws, i, Draws(u, n, again)) as real == Spread(m, Number(u, n, again), Number(u - d, n, again))
  {
    AllDraws(u, n, again);
    SumPrefixesTouching(ws, i, Draws(u, n, again), n, again);
    TotalSplit(ws, i);
    Pow2Monotone(Suf(ws, i), Total(ws));
    DrawsTouching(u, n, again, d, m);
  }

  // ----- The costs of a level -----

  /** `sum` over `number` equally likely cases has the mean `mean`. */
  ghost predicate Mean(mean: real, number: real, sum: nat) {
    mean * number == sum as real
  }

  /** The slots of level `i` in the trees that hold the id lists, summed over the lists: distinct prefixes times width. */
  ghost function SumSlots(ws: seq<nat>, i: nat, ss: seq<seq<nat>>): nat
    requires i < |ws|
  {
    SumPrefixes(ws, i, ss) * Pow2(ws[i])
  }

  /** Too few numbers left: no draw. */
  lemma {:induction false} NoSamples(v: nat, n: nat)
    requires v < n
    ensures Samples(v, n) == 0.0
  {
    if v < n - 1 {
      NoSamples(v, n - 1);
    }
  }

  lemma {:induction false} ProbTimesSamples(u: nat, n: nat, d: nat)
    requires d <= u
    ensures Prob(u, n, d) * Samples(u, n) == Samples(u - d, n)
  {
    if u - d >= n {
      ProbIsShare(u, n, d);
    } else {
      NoSamples(u - d, n);
    }
  }

  /** A cost `(1 - p) * m * w` over `number` draws, a share `p` of which avoids each of `m` blocks that hold `w` slots. */
  lemma {:induction false} Rescale(p: real, number: real, left: real, m: nat, w: nat, c: nat, prefixes: nat)
    requires p * number == left && c == m * w && prefixes as real == Spread(m, number, left)
    ensures Mean((1.0 - p) * c as real, number, prefixes * w)
  {
    RealProduct(m, w, c);
    RealProduct(prefixes, w, prefixes * w);
    Regrouped(p, number, left, m as real, w as real);
  }

  lemma {:induction false} Regrouped(p: real, number: real, left: real, m: real, w: real)
    requires p * number == left
    ensures ((1.0 - p) * (m * w)) * number == (m * (number - left)) * w
  {
    assert (1.0 - p) * number == number - left;
    assert ((1.0 - p) * (m * w)) * number == (m * w) * ((1.0 - p) * number);
    assert (m * w) * (number - left) == (m * (number - left)) * w;
  }

  lemma {:induction false} RealProduct(a: nat, b: nat, c: nat)
    requires c == a * b
    ensures c as real == a as real * b as real
  {
  }

  lemma {:induction false} LevelCostIs(bits: nat, n: nat, k: nat, j: nat, u: nat, d: nat, c: nat)
    requires k <= bits && u == Pow2(bits) && d == Pow2(bits - k) && c == Pow2(j)
    ensures LevelCost(bits, n, k, j) == (1.0 - Prob(u, n, d)) * c as real
  {
  }

  lemma {:induction false} EstimateIs(bits: nat, n: nat, k: nat, j: nat, u: nat, d: nat, c: nat)
    requires k <= bits && u == Pow2(bits) && d == Pow2(bits - k) && c == Pow2(j)
    ensures Estimate(bits, n, k, j) == (1.0 - Pow((u - d) as real / u as real, n)) * c as real
  {
  }

  lemma {:induction false} ExactMean(u: nat, n: nat, d: nat, m: nat, w: nat, c: nat, prefixes: nat, cost: real)
    requires d <= u && c == m * w && prefixes as real == Spread(m, Samples(u, n), Samples(u - d, n))
    requires cost == (1.0 - Prob(u, n, d)) * c as real
    ensures Mean(cost, Samples(u, n), prefixes * w)
  {
    ProbTimesSamples(u, n, d);
    Rescale(Prob(u, n, d), Samples(u, n), Samples(u - d, n), m, w, c, prefixes);
  }

  lemma {:induction false} EstimatedMean(u: nat, n: nat, d: nat, m: nat, w: nat, c: nat, prefixes: nat, cost: real)
    requires d <= u && u > 0 && c == m * w && prefixes as real == Spread(m, Pow(u as real, n), Pow((u - d) as real, n))
    requires cost == (1.0 - Pow((u - d) as real / u as real, n)) * c as real
    ensures Mean(cost, Pow(u as real, n), prefixes * w)
  {
    PowOfShare((u - d) as real, u as real, n);
    Rescale(Pow((u - d) as real / u as real, n), Pow(u as real, n), Pow((u - d) as real, n), m, w, c, prefixes);
  }

  lemma {:induction false} LevelBits(ws: seq<nat>, i: nat)
    requires i < |ws|
    ensures Pre(ws, i) <= Pre(ws, i + 1) <= Total(ws) && Total(ws) - Pre(ws, i) == Suf(ws, i)
    ensures Pow2(Suf(ws, i)) <= Pow2(Total(ws)) && Pow2(Pre(ws, i + 1)) == Pow2(Pre(ws, i)) * Pow2(ws[i])
  {
    PreMonotone(ws, i, |ws|);
    PreMonotone(ws, i + 1, |ws|);
    Pow2Monotone(Suf(ws, i), Total(ws));
    Pow2Add(Pre(ws, i), ws[i]);
  }

  /** The exact cost of a level is its expected number of slots over all draws without repetition. */
  lemma {:induction false} LevelCostIsExpected(ws: seq<nat>, i: nat, n: nat, u: nat)
    requires i < |ws| && u == Pow2(Total(ws))
    ensures Pre(ws, i) <= Total(ws)
    ensures Mean(LevelCost(Total(ws), n, Pre(ws, i), Pre(ws, i + 1)), Samples(u, n), SumSlots(ws, i, Draws(u, n, false)))
  {
    LevelBits(ws, i);
    var d, m, c := Pow2(Suf(ws, i)), Pow2(Pre(ws, i)), Pow2(Pre(ws, i + 1));
    DrawsPrefixes(ws, i, n, false, u, d, m);
    LevelCostIs(Total(ws), n, Pre(ws, i), Pre(ws, i + 1), u, d, c);
    ExactMean(u, n, d, m, Pow2(ws[i]), c, SumPrefixes(ws, i, Draws(u, n, false)),
              LevelCost(Total(ws), n, Pre(ws, i), Pre(ws, i + 1)));
  }

  lemma {:induction false} PowOfShare(a: real, b: real, n: nat)
    requires b != 0.0
    ensures Pow(a / b, n) * Pow(b, n) == Pow(a, n)
  {
    if n > 0 {
      PowOfShare(a, b, n - 1);
      PowStep(a / b, n);
      PowStep(b, n);
      PowStep(a, n);
      CancelStep(Pow(a / b, n - 1), Pow(b, n - 1), Pow(a, n - 1), a, b, Pow(a / b, n), Pow(b, n), Pow(a, n));
    }
  }

  /** The estimate is the same mean over the draws with repetition. */
  lemma {:induction false} EstimateIsExpected(ws: seq<nat>, i: nat, n: nat, u: nat)
    requires i < |ws| && u == Pow2(Total(ws))
    ensures Pre(ws, i) <= Total(ws)
    ensures Mean(Estimate(Total(ws), n, Pre(ws, i), Pre(ws, i + 1)), Pow(u as real, n), SumSlots(ws, i, Draws(u, n, true)))
  {
    LevelBits(ws, i);
    var d, m, c := Pow2(Suf(ws, i)), Pow2(Pre(ws, i)), Pow2(Pre(ws, i + 1));
    DrawsPrefixes(ws, i, n, true, u, d, m);
    NumberAgain(u, n);
    NumberAgain(u - d, n);
    EstimateIs(Total(ws), n, Pre(ws, i), Pre(ws, i + 1), u, d, c);
    EstimatedMean(u, n, d, m, Pow2(ws[i]), c, SumPrefixes(ws, i, Draws(u, n, true)),
                  Estimate(Total(ws), n, Pre(ws, i), Pre(ws, i + 1)));
  }

  // ----- The cost of a width vector -----

  /** Sizes of the trees that hold the id lists, levels `i` and below, summed over the lists. */
  ghost function SumSizes(ws: seq<nat>, i: nat, ss: seq<seq<nat>>): nat
    requires i <= |ws|
  {
    if ss == [] then 0 else SumSizes(ws, i, ss[..|ss| - 1]) + TreeSize(ws, ss[|ss| - 1], i)
  }

  lemma {:induction false} SumSizesStep(ws: seq<nat>, i: nat, ss: seq<seq<nat>>)
    requires i < |ws|
    ensures SumSizes(ws, i, ss) == SumSlots(ws, i, ss) + SumSizes(ws, i + 1, ss)
  {
    if ss != [] {
      var init, last := ss[..|ss| - 1], ss[|ss| - 1];
      SumSizesStep(ws, i, init);
      SlotsNext(SumPrefixes(ws, i, init), |PrefixSet(ws, last, i)|, Pow2(ws[i]));
    }
  }

  lemma {:induction false} SlotsNext(a: int, b: int, c: int)
    ensures (a + b) * c == a * c + b * c
  {
  }

  lemma {:induction false} SumSizesEnd(ws: seq<nat>, ss: seq<seq<nat>>)
    ensures SumSizes(ws, |ws|, ss) == 0
  {
    if ss != [] {
      SumSizesEnd(ws, ss[..|ss| - 1]);
    }
  }

  lemma {:induction false} CostStep(ws: seq<nat>, n: nat, i: nat)
    requires i < |ws| && n > 0
    ensures Pre(ws, i) <= Total(ws)
    ensures Cost(Total(ws), n, ws, i) == (if i == 0 then 0.0 else Cost(Total(ws), n, ws, i - 1))
                                         + LevelCost(Total(ws), n, Pre(ws, i), Pre(ws, i + 1))
  {
    LevelBits(ws, i);
    if i == 0 {
      RootCost(Total(ws), n, Pre(ws, 1));
    }
  }

  lemma {:induction false} MeanSum(a: real, b: real, number: real, x: nat, y: nat)
    requires Mean(a, number, x) && Mean(b, number, y)
    ensures Mean(a + b, number, x + y)
  {
    assert (a + b) * number == a * number + b * number;
  }

  lemma {:induction false} CostIsExpected(ws: seq<nat>, n: nat, i: nat, u: nat, ss: seq<seq<nat>>) returns (upTo: nat)
    requires i < |ws| && n > 0 && u == Pow2(Total(ws)) && ss == Draws(u, n, false)
    ensures Mean(Cost(Total(ws), n, ws, i), Samples(u, n), upTo) && upTo + SumSizes(ws, i + 1, ss) == SumSizes(ws, 0, ss)
  {
    LevelCostIsExpected(ws, i, n, u);
    SumSizesStep(ws, i, ss);
    CostStep(ws, n, i);
    upTo := SumSlots(ws, i, ss);
    if i > 0 {
      var above := CostIsExpected(ws, n, i - 1, u, ss);
      MeanSum(Cost(Total(ws), n, ws, i - 1), LevelCost(Total(ws), n, Pre(ws, i), Pre(ws, i + 1)), Samples(u, n), above, upTo);
      upTo := above + upTo;
    }
  }

  /** The cost the optimizer minimises is the expected size of the tree: the mean, over all draws of `n` distinct ids below
      `2^total`, of the size of the tree that holds them. */
  lemma {:induction false} FullCostIsExpectedSize(ws: seq<nat>, n: nat, u: nat)
    requires ws != [] && n > 0 && u == Pow2(Total(ws))
    ensures Mean(FullCost(Total(ws), n, ws), Samples(u, n), SumSizes(ws, 0, Draws(u, n, false)))
    ensures |Draws(u, n, false)| as real == Samples(u, n)
  {
    var all := CostIsExpected(ws, n, |ws| - 1, u, Draws(u, n, false));
    SumSizesEnd(ws, Draws(u, n, false));
    DrawsNumber(u, n, false);
  }

  lemma {:induction false} SmallerMean(a: real, b: real, number: nat, x: nat, y: nat)
    requires a <= b && Mean(a, number as real, x) && Mean(b, number as real, y)
    ensures x <= y
  {
    assert a * number as real <= b * number as real;
  }

  /** So a width vector of least cost gives the smallest trees on average. */
  lemma {:induction false} LeastCostIsSmallest(ws: seq<nat>, other: seq<nat>, n: nat, u: nat)
    requires ws != [] && other != [] && Total(other) == Total(ws) && n > 0 && u == Pow2(Total(ws))
    requires FullCost(Total(ws), n, ws) <= FullCost(Total(ws), n, other)
    ensures SumSizes(ws, 0, Draws(u, n, false)) <= SumSizes(other, 0, Draws(u, n, false))
  {
    FullCostIsExpectedSize(ws, n, u);
    FullCostIsExpectedSize(other, n, u);
    SmallerMean(FullCost(Total(ws), n, ws), FullCost(Total(ws), n, other), |Draws(u, n, false)|,
                SumSizes(ws, 0, Draws(u, n, false)), SumSizes(other, 0, Draws(u, n, false)));
  }

  /** A width vector that costs least, as `OptimalFanout` returns it, makes the smallest trees: summed over all draws of `n`
      ids, no other width vector of as many levels needs fewer slots. */
  lemma {:induction false} OptimalIsSmallest(bits: nat, n: nat, ws: seq<nat>)
    requires n > 0 && ws != [] && Total(ws) == bits
    requires forall other: seq<nat> | |other| == |ws| && Total(other) == bits :: FullCost(bits, n, ws) <= FullCost(bits, n, other)
    ensures forall other: seq<nat> | |other| == |ws| && Total(other) == bits ::
              SumSizes(ws, 0, Draws(Pow2(bits), n, false)) <= SumSizes(other, 0, Draws(Pow2(bits), n, false))
  {
    forall other: seq<nat> | |other| == |ws| && Total(other) == bits
      ensures SumSizes(ws, 0, Draws(Pow2(bits), n, false)) <= SumSizes(other, 0, Draws(Pow2(bits), n, false))
    {
      LeastCostIsSmallest(ws, other, n, Pow2(bits));
    }
  }
}
