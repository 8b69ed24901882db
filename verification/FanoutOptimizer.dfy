/** The choice of the radix tree's widths: a dynamic program over the number of levels and the bits they consume, with a
    cheap estimate that skips candidates. Arithmetic is over the reals. */
module FanoutOptimizer {
  import opened MixedRadix

  /** The start value of the table, `1ll << 62`. */
  const CAP: real := 4611686018427387904.0

  // ----- The probability that a subtree is empty -----

  function Factor(u: int, n: int, desc: int, i: int): real
    requires u - n + i != 0
  {
    (u - n - desc + i) as real / (u - n + i) as real
  }

  /** The first `i` factors of `prob`. */
  function Product(u: int, n: nat, desc: int, i: nat): real
    requires u >= n
  {
    if i == 0 then 1.0 else Product(u, n, desc, i - 1) * Factor(u, n, desc, i)
  }

  function Prob(u: int, n: nat, desc: nat): real {
    if u - desc < n then 0.0 else Product(u, n, desc, n)
  }

  method ComputeProb(u: int, n: nat, desc: nat) returns (res: real)
    ensures res == Prob(u, n, desc)
  {
    if u - desc < n {
      return 0.0;
    }
    res := 1.0;
    for i := 0 to n
      invariant res == Product(u, n, desc, i)
    {
      res := res * ((u - n - desc + (i + 1)) as real / (u - n + (i + 1)) as real);
    }
  }

  /** Ordered samples of `n` distinct items out of `u`. */
  function Samples(u: int, n: nat): real {
    if n == 0 then 1.0 else Samples(u, n - 1) * (u - (n - 1)) as real
  }

  /** The first `i` of the smallest factors of `Samples(u, n)`. */
  function TailSamples(u: int, n: nat, i: nat): real {
    if i == 0 then 1.0 else TailSamples(u, n, i - 1) * (u - n + i) as real
  }

  lemma {:induction false} TailStep(u: int, n: nat, i: nat)
    ensures TailSamples(u, n + 1, i + 1) == (u - n) as real * TailSamples(u, n, i)
  {
    if i > 0 {
      TailStep(u, n, i - 1);
      var a, b, c := (u - n) as real, TailSamples(u, n, i - 1), (u - n + i) as real;
      assert (a * b) * c == a * (b * c);
    } else {
      assert TailSamples(u, n + 1, 1) == TailSamples(u, n + 1, 0) * (u - n) as real;
    }
  }

  lemma {:induction false} TailIsAll(u: int, n: nat)
    ensures TailSamples(u, n, n) == Samples(u, n)
  {
    if n > 0 {
      TailIsAll(u, n - 1);
      TailStep(u, n - 1, n - 1);
    }
  }

  /** A factor's denominator cancels against the next item of the tail. */
  lemma {:induction false} Cancel(p: real, t: real, x: real, y: real)
    requires y != 0.0
    ensures (p * (x / y)) * (t * y) == (p * t) * x
  {
    var q := x / y;
    assert q * y == x;
    Regroup(p, q, t, y);
  }

  lemma {:induction false} Regroup(p: real, q: real, t: real, y: real)
    ensures (p * q) * (t * y) == (p * t) * (q * y)
  {
    assert (p * q) * (t * y) == p * (q * (t * y));
    assert q * (t * y) == t * (q * y);
    assert p * (t * (q * y)) == (p * t) * (q * y);
  }

  lemma {:induction false} CancelStep(p: real, t: real, r: real, x: real, y: real, p': real, t': real, r': real)
    requires p * t == r && y != 0.0 && p' == p * (x / y) && t' == t * y && r' == r * x
    ensures p' * t' == r'
  {
    Cancel(p, t, x, y);
  }

  lemma {:induction false} ProductStep(u: int, n: nat, desc: nat, i: nat, x: real, y: real)
    requires u >= n && i > 0 && x == (u - n - desc + i) as real && y == (u - n + i) as real
    ensures y != 0.0 && Product(u, n, desc, i) == Product(u, n, desc, i - 1) * (x / y)
    ensures TailSamples(u, n, i) == TailSamples(u, n, i - 1) * y
  {
  }

  lemma {:induction false} TailNext(u: int, n: nat, i: nat, x: real)
    requires i > 0 && x == (u - n + i) as real
    ensures TailSamples(u, n, i) == TailSamples(u, n, i - 1) * x
  {
  }

  lemma {:induction false} ProductTimesTail(u: int, n: nat, desc: nat, i: nat)
    requires u >= n
    ensures Product(u, n, desc, i) * TailSamples(u, n, i) == TailSamples(u - desc, n, i)
  {
    if i > 0 {
      var x, y := (u - n - desc + i) as real, (u - n + i) as real;
      ProductTimesTail(u, n, desc, i - 1);
      ProductStep(u, n, desc, i, x, y);
      TailNext(u - desc, n, i, x);
      CancelStep(Product(u, n, desc, i - 1), TailSamples(u, n, i - 1), TailSamples(u - desc, n, i - 1), x, y,
                 Product(u, n, desc, i), TailSamples(u, n, i), TailSamples(u - desc, n, i));
    }
  }

  /** `prob` is the share of samples without replacement that avoid a block of `desc` items. */
  lemma {:induction false} ProbIsShare(u: int, n: nat, desc: nat)
    requires u - desc >= n
    ensures Prob(u, n, desc) * Samples(u, n) == Samples(u - desc, n)
  {
    ProductTimesTail(u, n, desc, n);
    TailIsAll(u, n);
    TailIsAll(u - desc, n);
  }

  function Pow(x: real, n: nat): real {
    if n == 0 then 1.0 else Pow(x, n - 1) * x
  }

  lemma {:induction false} FactorBounds(u: int, n: nat, desc: nat, i: nat)
    requires u - desc >= n && 0 < i <= n
    ensures 0.0 <= Factor(u, n, desc, i) <= 1.0
    ensures u > 0 && Factor(u, n, desc, i) <= (u - desc) as real / u as real
  {
    var a, b, d := (u - n - desc + i) as real, (u - n + i) as real, desc as real;
    var x, m := u as real, (n - i) as real;
    assert a == b - d && b > 0.0 && a >= 0.0 && x == b + m;
    assert a / b <= 1.0;
    assert (u - desc) as real == x - d;
    assert a * x <= (x - d) * b by {
      assert a * x == b * b + b * m - d * b - d * m;
      assert (x - d) * b == b * b + m * b - d * b;
      assert d * m >= 0.0;
    }
    DivideBoth(a, b, x - d, x);
  }

  lemma {:induction false} NonPositive(d: real, y: real)
    requires y > 0.0 && d * y <= 0.0
    ensures d <= 0.0
  {
    assert d > 0.0 ==> d * y > 0.0;
  }

  lemma {:induction false} DivideBoth(a: real, b: real, c: real, x: real)
    requires b > 0.0 && x > 0.0 && a * x <= c * b
    ensures a / b <= c / x
  {
    var p, q := a / b, c / x;
    assert p * b == a && q * x == c;
    assert b * x > 0.0;
    assert p * (b * x) == a * x && q * (b * x) == c * b;
    assert (p - q) * (b * x) == a * x - c * b;
    NonPositive(p - q, b * x);
  }

  /** Drawing with replacement avoids a block at least as often: the estimate never exceeds the true value. */
  lemma {:induction false} ProductBelowPow(u: int, n: nat, desc: nat, i: nat)
    requires u - desc >= n && i <= n && u > 0
    ensures 0.0 <= Product(u, n, desc, i) <= 1.0
    ensures Product(u, n, desc, i) <= Pow((u - desc) as real / u as real, i)
  {
    if i > 0 {
      var share := (u - desc) as real / u as real;
      ProductBelowPow(u, n, desc, i - 1);
      FactorBounds(u, n, desc, i);
      PowStep(share, i);
      BelowStep(Product(u, n, desc, i - 1), Pow(share, i - 1), Factor(u, n, desc, i), share, Product(u, n, desc, i), Pow(share, i));
    }
  }

  lemma {:induction false} PowStep(x: real, n: nat)
    requires n > 0
    ensures Pow(x, n) == Pow(x, n - 1) * x
  {
  }

  lemma {:induction false} BelowStep(p: real, q: real, f: real, g: real, p': real, q': real)
    requires 0.0 <= p <= q && p <= 1.0 && 0.0 <= f <= g && f <= 1.0 && p' == p * f && q' == q * g
    ensures 0.0 <= p' <= 1.0 && p' <= q'
  {
    Multiply(p, q, f, g);
  }

  lemma {:induction false} NonNegative(x: real, y: real)
    requires x >= 0.0 && y >= 0.0
    ensures x * y >= 0.0
  {
  }

  lemma {:induction false} Multiply(p: real, q: real, f: real, g: real)
    requires 0.0 <= p <= q && p <= 1.0 && 0.0 <= f <= g && f <= 1.0
    ensures 0.0 <= p * f <= q * g && p * f <= 1.0
  {
    NonNegative(q - p, f);
    NonNegative(g - f, q);
    NonNegative(1.0 - p, f);
    NonNegative(p, f);
    assert (q - p) * f == q * f - p * f && (g - f) * q == q * g - q * f && (1.0 - p) * f == f - p * f;
  }

  lemma {:induction false} PowNonNegative(x: real, n: nat)
    requires x >= 0.0
    ensures Pow(x, n) >= 0.0
  {
    if n > 0 {
      PowNonNegative(x, n - 1);
    }
  }

  lemma {:induction false} ProbBounds(u: nat, n: nat, desc: nat)
    requires u > 0 && desc <= u
    ensures 0.0 <= Prob(u, n, desc) <= 1.0 && Prob(u, n, desc) <= Pow((u - desc) as real / u as real, n)
  {
    if u - desc >= n {
      ProductBelowPow(u, n, desc, n);
    } else {
      assert (u - desc) as real / u as real >= 0.0;
      PowNonNegative((u - desc) as real / u as real, n);
    }
  }

  // ----- Costs -----

  /** Expected slots of a level that ends after `j` bits below a level that ends after `k` bits. */
  function LevelCost(bits: nat, n: nat, k: nat, j: nat): real
    requires k <= bits
  {
    (1.0 - Prob(Pow2(bits), n, Pow2(bits - k))) * Pow2(j) as real
  }

  /** The estimate used for skipping. */
  function Estimate(bits: nat, n: nat, k: nat, j: nat): real
    requires k <= bits
  {
    (1.0 - Pow((Pow2(bits) - Pow2(bits - k)) as real / Pow2(bits) as real, n)) * Pow2(j) as real
  }

  lemma {:induction false} LevelCostBounds(bits: nat, n: nat, k: nat, j: nat)
    requires k <= bits
    ensures 0.0 <= LevelCost(bits, n, k, j) <= Pow2(j) as real
    ensures Estimate(bits, n, k, j) <= LevelCost(bits, n, k, j)
  {
    Pow2Monotone(bits - k, bits);
    ProbBounds(Pow2(bits), n, Pow2(bits - k));
    Scale(1.0 - Prob(Pow2(bits), n, Pow2(bits - k)), Pow2(j) as real);
    var e := Pow((Pow2(bits) - Pow2(bits - k)) as real / Pow2(bits) as real, n);
    ScaleMonotone(1.0 - e, 1.0 - Prob(Pow2(bits), n, Pow2(bits - k)), Pow2(j) as real);
  }

  lemma {:induction false} Scale(x: real, y: real)
    requires 0.0 <= x <= 1.0 && y >= 0.0
    ensures 0.0 <= x * y <= y
  {
  }

  lemma {:induction false} ScaleMonotone(x: real, z: real, y: real)
    requires x <= z && y >= 0.0
    ensures x * y <= z * y
  {
  }

  /** Expected slots of the first `i + 1` levels of a width vector. */
  function Cost(bits: nat, n: nat, ws: seq<nat>, i: nat): real
    requires i < |ws| && Total(ws) <= bits
  {
    if i == 0 then Pow2(Pre(ws, 1)) as real
    else
      PreMonotone(ws, i, |ws|);
      Cost(bits, n, ws, i - 1) + LevelCost(bits, n, Pre(ws, i), Pre(ws, i + 1))
  }

  /** Cost of all levels. */
  function FullCost(bits: nat, n: nat, ws: seq<nat>): real
    requires ws != [] && Total(ws) <= bits
  {
    Cost(bits, n, ws, |ws| - 1)
  }

  /** The table entry after trying the first `m` candidates. */
  function Partial(bits: nat, n: nat, i: nat, j: nat, m: nat): real
    requires i > 0 && m <= j + 1 && j <= bits
    decreases i, m
  {
    if m == 0 then CAP
    else
      var c := Best(bits, n, i - 1, m - 1) + LevelCost(bits, n, m - 1, j);
      if c < Partial(bits, n, i, j, m - 1) then c else Partial(bits, n, i, j, m - 1)
  }

  /** The least cost of `i + 1` levels that consume `j` bits, as far as it is below the start value. */
  function Best(bits: nat, n: nat, i: nat, j: nat): real
    requires j <= bits
    decreases i, j + 2
  {
    if i == 0 then Pow2(j) as real else Partial(bits, n, i, j, j + 1)
  }

  lemma {:induction false} PartialBelow(bits: nat, n: nat, i: nat, j: nat, m: nat, k: nat)
    requires i > 0 && k < m <= j + 1 && j <= bits
    ensures Partial(bits, n, i, j, m) <= Best(bits, n, i - 1, k) + LevelCost(bits, n, k, j)
  {
    if k < m - 1 {
      PartialBelow(bits, n, i, j, m - 1, k);
    }
  }

  /** No width vector costs less than the table says. */
  lemma {:induction false} BestIsLower(bits: nat, n: nat, ws: seq<nat>, i: nat)
    requires i < |ws| && Total(ws) <= bits
    ensures Pre(ws, i + 1) <= bits && Best(bits, n, i, Pre(ws, i + 1)) <= Cost(bits, n, ws, i)
  {
    PreMonotone(ws, i + 1, |ws|);
    if i > 0 {
      BestIsLower(bits, n, ws, i - 1);
      PartialBelow(bits, n, i, Pre(ws, i + 1), Pre(ws, i + 1) + 1, Pre(ws, i));
    }
  }

  /** The table stays below its start value. */
  lemma {:induction false} BestIsSmall(bits: nat, n: nat, i: nat, j: nat)
    requires j <= bits
    ensures Best(bits, n, i, j) <= i as real + Pow2(j) as real
  {
    if i > 0 {
      BestIsSmall(bits, n, i - 1, 0);
      PartialBelow(bits, n, i, j, j + 1, 0);
      LevelCostBounds(bits, n, 0, j);
    }
  }

  /** What the entry `(i, j)` of the two tables says once it has tried `m` candidates. */
  ghost predicate EntryOk(bits: nat, n: nat, i: nat, j: nat, m: nat, cost: real, pre: int)
    requires i > 0 && m <= j + 1 && j <= bits
  {
    && cost == Partial(bits, n, i, j, m) <= CAP
    && (pre == -1 ==> cost == CAP)
    && (pre != -1 ==> 0 <= pre < m && cost == Best(bits, n, i - 1, pre) + LevelCost(bits, n, pre, j))
  }

  method ExactCost(bits: nat, n: nat, k: nat, j: nat) returns (cost: real)
    requires k <= bits
    ensures cost == LevelCost(bits, n, k, j)
  {
    var p := ComputeProb(Pow2(bits), n, Pow2(bits - k));
    cost := (1.0 - p) * Pow2(j) as real;
  }

  lemma {:induction false} EntryStep(bits: nat, n: nat, i: nat, j: nat, k: nat, cost: real, pre: int, c: real)
    requires i > 0 && k <= j <= bits && EntryOk(bits, n, i, j, k, cost, pre)
    requires c == Best(bits, n, i - 1, k) + LevelCost(bits, n, k, j)
    ensures c >= cost ==> EntryOk(bits, n, i, j, k + 1, cost, pre)
    ensures c < cost ==> EntryOk(bits, n, i, j, k + 1, c, k)
  {
  }

  /** One candidate, with the test that skips the exact cost when the estimate is already too high. */
  method TryCandidate(bits: nat, n: nat, i: nat, j: nat, k: nat, prev: real, cost: real, pre: int)
    returns (cost': real, pre': int)
    requires i > 0 && k <= j <= bits && prev == Best(bits, n, i - 1, k) && EntryOk(bits, n, i, j, k, cost, pre)
    ensures EntryOk(bits, n, i, j, k + 1, cost', pre')
  {
    cost', pre' := cost, pre;
    EntryStep(bits, n, i, j, k, cost, pre, prev + LevelCost(bits, n, k, j));
    LevelCostBounds(bits, n, k, j);
    var estimate := Estimate(bits, n, k, j);
    if prev + estimate >= cost {
      return;
    }
    var exact := ExactCost(bits, n, k, j);
    if prev + exact < cost {
      cost', pre' := prev + exact, k;
    }
  }

  ghost predicate CellOk(bits: nat, n: nat, g: array2<real>, pre: array2<int>, i: nat, j: nat)
    requires g.Length0 == pre.Length0 > i && g.Length1 == pre.Length1 == bits + 1 && j <= bits
    reads g, pre
  {
    if i == 0 then g[0, j] == Best(bits, n, 0, j) else EntryOk(bits, n, i, j, j + 1, g[i, j], pre[i, j])
  }

  /** The first `rows` rows, and `cols` entries of the next one, are final. */
  ghost predicate Filled(bits: nat, n: nat, g: array2<real>, pre: array2<int>, rows: nat, cols: nat)
    requires g.Length0 == pre.Length0 >= rows && g.Length1 == pre.Length1 == bits + 1 && cols <= bits + 1
    reads g, pre
  {
    && (rows == g.Length0 ==> cols == 0)
    && (forall i, j {:trigger CellOk(bits, n, g, pre, i, j)} |
          0 <= i < g.Length0 && 0 <= j <= bits && (i < rows || (i == rows && j < cols)) :: CellOk(bits, n, g, pre, i, j))
    && (forall i, j | 0 <= i < g.Length0 && 0 <= j <= bits && !(i < rows || (i == rows && j < cols)) ::
          g[i, j] == CAP && pre[i, j] == -1)
  }

  method FillEntry(bits: nat, n: nat, g: array2<real>, pre: array2<int>, i: nat, j: nat)
    requires g.Length0 == pre.Length0 > i > 0 && g.Length1 == pre.Length1 == bits + 1 && j <= bits
    requires Filled(bits, n, g, pre, i, j)
    modifies g, pre
    ensures EntryOk(bits, n, i, j, j + 1, g[i, j], pre[i, j])
    ensures forall a, b | 0 <= a < g.Length0 && 0 <= b <= bits && (a != i || b != j) ::
              g[a, b] == old(g[a, b]) && pre[a, b] == old(pre[a, b])
  {
    for k := 0 to j + 1
      invariant EntryOk(bits, n, i, j, k, g[i, j], pre[i, j])
      invariant forall a, b | 0 <= a < g.Length0 && 0 <= b <= bits && (a != i || b != j) ::
                  g[a, b] == old(g[a, b]) && pre[a, b] == old(pre[a, b])
    {
      assert old(CellOk(bits, n, g, pre, i - 1, k));
      g[i, j], pre[i, j] := TryCandidate(bits, n, i, j, k, g[i - 1, k], g[i, j], pre[i, j]);
    }
  }

  method FillRow(bits: nat, n: nat, g: array2<real>, pre: array2<int>, i: nat)
    requires g.Length0 == pre.Length0 > i > 0 && g.Length1 == pre.Length1 == bits + 1
    requires Filled(bits, n, g, pre, i, 0)
    modifies g, pre
    ensures Filled(bits, n, g, pre, i + 1, 0)
  {
    for j := 0 to bits + 1
      invariant Filled(bits, n, g, pre, i, j)
    {
      label Before:
      FillEntry(bits, n, g, pre, i, j);
      forall a, b | 0 <= a < g.Length0 && 0 <= b <= bits && (a < i || (a == i && b < j + 1))
        ensures CellOk(bits, n, g, pre, a, b)
      {
        if a != i || b != j {
          assert old@Before(CellOk(bits, n, g, pre, a, b));
        }
      }
    }
    assert forall a, b {:trigger CellOk(bits, n, g, pre, a, b)} |
        0 <= a < g.Length0 && 0 <= b <= bits && a < i + 1 :: CellOk(bits, n, g, pre, a, b);
  }

  /** Fills both tables row by row. */
  method FillTables(bits: nat, n: nat, l: nat) returns (g: array2<real>, pre: array2<int>)
    requires l > 0
    ensures fresh(g) && fresh(pre) && g.Length0 == pre.Length0 == l && g.Length1 == pre.Length1 == bits + 1
    ensures Filled(bits, n, g, pre, l, 0)
  {
    g := new real[l, bits + 1]((_, _) => CAP);
    pre := new int[l, bits + 1]((_, _) => -1);
    for j := 0 to bits + 1
      invariant Filled(bits, n, g, pre, 0, j)
    {
      label Before:
      g[0, j] := Pow2(j) as real;
      forall b | 0 <= b < j + 1 ensures CellOk(bits, n, g, pre, 0, b) {
        if b != j {
          assert old@Before(CellOk(bits, n, g, pre, 0, b));
        }
      }
    }
    for i := 1 to l
      invariant Filled(bits, n, g, pre, i, 0)
    {
      FillRow(bits, n, g, pre, i);
    }
  }

  /** `p` is the number of bits an optimal choice for `(i, j)` leaves to the levels above. */
  ghost predicate Follows(bits: nat, n: nat, i: nat, j: int, p: int) {
    i > 0 && 0 <= p <= j <= bits && Best(bits, n, i, j) == Best(bits, n, i - 1, p) + LevelCost(bits, n, p, j)
  }

  ghost predicate LinkOk(bits: nat, n: nat, s: seq<int>, i: nat)
    requires 0 < i < |s|
  {
    Follows(bits, n, i, s[i], s[i - 1])
  }

  /** Bits consumed after each level, read off the second table from the last level up. */
  ghost predicate Chain(bits: nat, n: nat, s: seq<int>, from: nat) {
    && (forall i | from <= i < |s| :: 0 <= s[i] <= bits)
    && (forall i {:trigger LinkOk(bits, n, s, i)} | from < i < |s| :: LinkOk(bits, n, s, i))
  }

  /** Every entry the backtrack reads is defined: a real predecessor, no smaller than zero. */
  lemma {:induction false} PredecessorDefined(bits: nat, n: nat, i: nat, j: nat, cost: real, pre: int)
    requires i > 0 && j <= bits && EntryOk(bits, n, i, j, j + 1, cost, pre)
    requires i as real + Pow2(bits) as real < CAP
    ensures 0 <= pre <= j && Best(bits, n, i, j) == Best(bits, n, i - 1, pre) + LevelCost(bits, n, pre, j)
  {
    BestIsSmall(bits, n, i, j);
    Pow2Monotone(j, bits);
  }

  method ReadPredecessor(bits: nat, n: nat, g: array2<real>, pre: array2<int>, i: nat, j: int) returns (p: int)
    requires g.Length0 == pre.Length0 > i && g.Length1 == pre.Length1 == bits + 1 && 0 <= j <= bits
    requires Filled(bits, n, g, pre, g.Length0, 0) && i as real + Pow2(bits) as real < CAP
    ensures i > 0 ==> Follows(bits, n, i, j, p)
  {
    p := pre[i, j];
    if i > 0 {
      assert CellOk(bits, n, g, pre, i, j);
      PredecessorDefined(bits, n, i, j, g[i, j], p);
    }
  }

  /** The second table's backtrack: the bits consumed after each level. */
  method Backtrack(bits: nat, n: nat, l: nat, g: array2<real>, pre: array2<int>) returns (s: array<int>)
    requires l > 0 && g.Length0 == pre.Length0 == l && g.Length1 == pre.Length1 == bits + 1
    requires Filled(bits, n, g, pre, l, 0) && (l - 1) as real + Pow2(bits) as real < CAP
    ensures fresh(s) && s.Length == l && s[l - 1] == bits && Chain(bits, n, s[..], 0)
  {
    s := new int[l](_ => 0);
    var now: int := bits;
    for i := l downto 0
      invariant if i == l then now == bits else s[l - 1] == bits
      invariant i > 0 ==> 0 <= now <= bits
      invariant 0 < i < l ==> Follows(bits, n, i, s[i], now)
      invariant Chain(bits, n, s[..], i)
    {
      ghost var before := s[..];
      s[i] := now;
      forall k | i < k < l ensures LinkOk(bits, n, s[..], k) {
        if k > i + 1 {
          assert LinkOk(bits, n, before, k);
        }
      }
      now := ReadPredecessor(bits, n, g, pre, i, now);
    }
  }

  ghost predicate AreDifferences(p: seq<int>, d: seq<int>) {
    |p| == |d| > 0 && d[0] == p[0] && forall i | 0 < i < |p| :: d[i] == p[i] - p[i - 1]
  }

  /** Differences of consecutive entries, taken from the end so that each subtraction sees the original neighbour. */
  method Differences(s: array<int>)
    requires s.Length > 0
    modifies s
    ensures AreDifferences(old(s[..]), s[..])
  {
    for i := s.Length downto 1
      invariant forall k | i <= k < s.Length :: s[k] == old(s[k]) - old(s[k - 1])
      invariant forall k | 0 <= k < i :: s[k] == old(s[k])
    {
      s[i] := s[i] - s[i - 1];
    }
  }

  lemma {:induction false} DifferencesSumUp(ws: seq<nat>, p: seq<int>, i: nat)
    requires AreDifferences(p, ws) && i < |p|
    ensures Pre(ws, i + 1) == p[i]
  {
    if i > 0 {
      DifferencesSumUp(ws, p, i - 1);
    } else {
      assert Pre(ws, 1) == Pre(ws, 0) + ws[0];
    }
  }

  lemma {:induction false} ChainCost(bits: nat, n: nat, ws: seq<nat>, p: seq<int>, i: nat)
    requires |ws| == |p| && i < |p| && Total(ws) <= bits && Chain(bits, n, p, 0)
    requires forall k | 0 <= k < |p| :: Pre(ws, k + 1) == p[k]
    ensures Cost(bits, n, ws, i) == Best(bits, n, i, p[i])
  {
    if i > 0 {
      ChainCost(bits, n, ws, p, i - 1);
      assert LinkOk(bits, n, p, i);
    }
  }

  lemma {:induction false} ChainAscends(bits: nat, n: nat, p: seq<int>, i: nat)
    requires Chain(bits, n, p, 0) && 0 < i < |p|
    ensures p[i - 1] <= p[i]
  {
    assert LinkOk(bits, n, p, i);
  }

  lemma {:induction false} ChainOptimal(bits: nat, n: nat, p: seq<int>, ws: seq<nat>)
    requires AreDifferences(p, ws) && Chain(bits, n, p, 0) && p[|p| - 1] == bits
    ensures Total(ws) == bits
    ensures forall other: seq<nat> | |other| == |ws| && Total(other) == bits :: FullCost(bits, n, ws) <= FullCost(bits, n, other)
  {
    forall i | 0 <= i < |p| ensures Pre(ws, i + 1) == p[i] {
      DifferencesSumUp(ws, p, i);
    }
    ChainCost(bits, n, ws, p, |p| - 1);
    forall other: seq<nat> | |other| == |ws| && Total(other) == bits
      ensures FullCost(bits, n, ws) <= FullCost(bits, n, other)
    {
      BestIsLower(bits, n, other, |ws| - 1);
    }
  }

  /** The widths found sum to the number of bits, and no other width vector of as many levels costs less. */
  method OptimalFanout(n: nat, bits: nat, l: nat) returns (ws: seq<nat>)
    requires l > 0 && (l - 1) as real + Pow2(bits) as real < CAP
    ensures |ws| == l && Total(ws) == bits
    ensures forall other: seq<nat> | |other| == l && Total(other) == bits :: FullCost(bits, n, ws) <= FullCost(bits, n, other)
  {
    var g, pre := FillTables(bits, n, l);
    var s := Backtrack(bits, n, l, g, pre);
    ghost var p := s[..];
    Differences(s);
    ws := Widths(s, bits, n, p);
    ChainOptimal(bits, n, p, ws);
  }

  method Widths(s: array<int>, ghost bits: nat, ghost n: nat, ghost p: seq<int>) returns (ws: seq<nat>)
    requires AreDifferences(p, s[..]) && Chain(bits, n, p, 0)
    ensures ws == s[..]
  {
    forall i | 0 <= i < |p| ensures s[..][i] >= 0 {
      if i > 0 {
        ChainAscends(bits, n, p, i);
      }
    }
    ws := s[..];
  }

  // ----- Pruning -----

  lemma {:induction false} CostAppend(bits: nat, n: nat, ws: seq<nat>, w: nat, i: nat)
    requires i < |ws| && Total(ws + [w]) <= bits
    ensures Total(ws) <= bits && Cost(bits, n, ws + [w], i) == Cost(bits, n, ws, i)
  {
    PreAppend(ws, w, |ws|);
    PreAppend(ws, w, i + 1);
    if i > 0 {
      PreAppend(ws, w, i);
      CostAppend(bits, n, ws, w, i - 1);
    }
  }

  lemma {:induction false} FullCostAppend(bits: nat, n: nat, ws: seq<nat>, w: nat)
    requires ws != [] && Total(ws + [w]) <= bits
    ensures Total(ws) <= bits && Total(ws + [w]) == Total(ws) + w
    ensures FullCost(bits, n, ws + [w]) == FullCost(bits, n, ws) + LevelCost(bits, n, Total(ws), Total(ws) + w)
  {
    PreAppend(ws, w, |ws|);
    CostAppend(bits, n, ws, w, |ws| - 1);
  }

  /** With at least one vertex the root level is certainly occupied. */
  lemma {:induction false} RootCost(bits: nat, n: nat, j: nat)
    requires n > 0
    ensures LevelCost(bits, n, 0, j) == Pow2(j) as real
  {
  }

  lemma {:induction false} AllZero(bits: nat, n: nat, ws: seq<nat>)
    requires ws != [] && Total(ws) <= bits && NonZero(ws) == []
    ensures Total(ws) == 0 && FullCost(bits, n, ws) >= 0.0
  {
    NonZeroTotal(ws);
    CostNonNegative(bits, n, ws, |ws| - 1);
  }

  lemma {:induction false} CostNonNegative(bits: nat, n: nat, ws: seq<nat>, i: nat)
    requires i < |ws| && Total(ws) <= bits
    ensures Cost(bits, n, ws, i) >= 0.0
  {
    if i > 0 {
      PreMonotone(ws, i, |ws|);
      CostNonNegative(bits, n, ws, i - 1);
      LevelCostBounds(bits, n, Pre(ws, i), Pre(ws, i + 1));
    }
  }

  /** Dropping the zero widths never costs more. */
  lemma {:induction false} PruneNeverCostsMore(bits: nat, n: nat, ws: seq<nat>)
    requires n > 0 && Total(ws) <= bits && NonZero(ws) != []
    ensures Total(NonZero(ws)) == Total(ws) && 0 !in NonZero(ws)
    ensures FullCost(bits, n, NonZero(ws)) <= FullCost(bits, n, ws)
  {
    NonZeroTotal(ws);
    var init, w := ws[..|ws| - 1], ws[|ws| - 1];
    assert ws == init + [w];
    NonZeroTotal(init);
    if init != [] {
      FullCostAppend(bits, n, init, w);
      LevelCostBounds(bits, n, Total(init), Total(ws));
      if NonZero(init) == [] {
        AllZero(bits, n, init);
        RootCost(bits, n, w);
        assert NonZero(ws) == [w];
        assert Pre([w], 1) == Pre([w], 0) + w;
      } else {
        PruneNeverCostsMore(bits, n, init);
        if w == 0 {
          assert NonZero(ws) == NonZero(init);
        } else {
          FullCostAppend(bits, n, NonZero(init), w);
        }
      }
    } else {
      assert NonZero(ws) == ws;
    }
  }

  /** `Optimizer::Prune`. */
  method Prune(a: seq<nat>) returns (res: seq<nat>)
    ensures res == NonZero(a)
  {
    res := [];
    for i := 0 to |a|
      invariant res == NonZero(a[..i])
    {
      assert a[..i + 1][..i] == a[..i];
      if a[i] != 0 {
        res := res + [a[i]];
      }
    }
    assert a[..|a|] == a;
  }
}
