/** Mixed-radix arithmetic of the variable-width radix tree.

    Level `i` of the tree consumes `ws[i]` bits of an id, most significant first. `Digit` is the mask-and-shift of the
    tree's loops; `Prefix` is the number formed by the digits above level `i`. */
module MixedRadix {

  function Pow2(n: nat): (p: nat)
    ensures p >= 1
  {
    if n == 0 then 1 else 2 * Pow2(n - 1)
  }

  function Quotient(x: nat, m: nat): nat
    requires m > 0
  {
    x / m
  }

  function Remainder(x: nat, m: nat): nat
    requires m > 0
  {
    x % m
  }

  /** Bits consumed above level `i`. */
  function Pre(ws: seq<nat>, i: nat): nat
    requires i <= |ws|
  {
    if i == 0 then 0 else Pre(ws, i - 1) + ws[i - 1]
  }

  function Total(ws: seq<nat>): nat {
    Pre(ws, |ws|)
  }

  lemma {:induction false} PreMonotone(ws: seq<nat>, i: nat, j: nat)
    requires i <= j <= |ws|
    ensures Pre(ws, i) <= Pre(ws, j)
  {
    if i < j {
      PreMonotone(ws, i, j - 1);
    }
  }

  /** Bits from level `i` down: `num_now` in the tree's loops. */
  function Suf(ws: seq<nat>, i: nat): nat
    requires i <= |ws|
  {
    PreMonotone(ws, i, |ws|);
    Total(ws) - Pre(ws, i)
  }

  /** `(id & ((1 << num_now) - 1)) >> shift` at level `i`. */
  function Digit(ws: seq<nat>, i: nat, id: nat): nat
    requires i < |ws|
  {
    (id % Pow2(Suf(ws, i))) / Pow2(Suf(ws, i + 1))
  }

  /** The part of an id the tree distinguishes. */
  function Key(ws: seq<nat>, id: nat): nat {
    id % Pow2(Total(ws))
  }

  /** The digits above level `i`, read as one number. */
  function Prefix(ws: seq<nat>, i: nat, id: nat): nat
    requires i <= |ws|
  {
    Quotient(Key(ws, id), Pow2(Suf(ws, i)))
  }

  function Digits(ws: seq<nat>, id: nat): (ds: seq<nat>)
    ensures |ds| == |ws| && forall i | 0 <= i < |ws| :: ds[i] == Digit(ws, i, id)
  {
    seq(|ws|, i requires 0 <= i < |ws| => Digit(ws, i, id))
  }

  /** Each digit fits its level. */
  ghost predicate IsDigits(ws: seq<nat>, ds: seq<nat>) {
    |ds| == |ws| && forall i | 0 <= i < |ds| :: ds[i] < Pow2(ws[i])
  }

  /** The number formed by the first `i` digits, the way `Transform` accumulates it. */
  function Code(ws: seq<nat>, ds: seq<nat>, i: nat): nat
    requires i <= |ws| && i <= |ds|
  {
    if i == 0 then 0 else Code(ws, ds, i - 1) * Pow2(ws[i - 1]) + ds[i - 1]
  }

  // ----- Division -----

  lemma {:induction false} Pow2Add(a: nat, b: nat)
    ensures Pow2(a + b) == Pow2(a) * Pow2(b)
  {
    if a > 0 {
      Pow2Add(a - 1, b);
      assert 2 * (Pow2(a - 1) * Pow2(b)) == Pow2(a) * Pow2(b);
    }
  }

  lemma {:induction false} Pow2Monotone(a: nat, b: nat)
    requires a <= b
    ensures Pow2(a) <= Pow2(b)
  {
    if a < b {
      Pow2Monotone(a, b - 1);
    }
  }

  lemma {:induction false} Split(q: nat, m: nat, r: nat)
    requires r < m
    ensures (q * m + r) / m == q && (q * m + r) % m == r
  {
    var x := q * m + r;
    var d: int := x / m - q;
    assert x == (x / m) * m + x % m;
    assert d * m == (x / m) * m - q * m;
    assert d >= 1 ==> d * m >= m;
    assert d <= -1 ==> d * m + m <= 0;
  }

  lemma {:induction false} DivMod(x: nat, m: nat)
    requires m > 0
    ensures x == (x / m) * m + x % m && x % m < m
  {
  }

  lemma {:induction false} Distribute(q: nat, m: nat, r: nat, n: nat)
    ensures (q * m + r) * n == q * (m * n) + r * n
  {
    assert (q * m + r) * n == q * m * n + r * n;
  }

  /** A two-digit number with digits `r` and `s` is below the product of the radices. */
  lemma {:induction false} TwoDigits(r: nat, m: nat, s: nat, n: nat)
    requires r < m && s < n
    ensures r * n + s < m * n
  {
    assert r * n <= (m - 1) * n;
    assert (m - 1) * n == m * n - n;
  }

  /** Division by `m` and then by `n`, and the remainders that go with it. */
  lemma {:induction false} DivTwice(x: nat, m: nat, n: nat, k: nat)
    requires m > 0 && n > 0 && k == m * n
    ensures k > 0 && x / k == (x / n) / m && (x % k) / n == (x / n) % m && (x % k) % n == x % n
  {
    var q, r := x / n, x % n;
    var q', r' := q / m, q % m;
    DivMod(x, n);
    DivMod(q, m);
    Distribute(q', m, r', n);
    TwoDigits(r', m, r, n);
    assert x == q' * k + (r' * n + r);
    Split(q', k, r' * n + r);
    Split(r', n, r);
  }

  lemma {:induction false} ModShrinks(x: nat, m: nat)
    requires m > 0 && x < m
    ensures x % m == x && x / m == 0
  {
    Split(0, m, x);
  }

  // ----- Prefixes and digits -----

  lemma {:induction false} SufStep(ws: seq<nat>, i: nat)
    requires i < |ws|
    ensures Suf(ws, i) == ws[i] + Suf(ws, i + 1)
    ensures Pow2(Suf(ws, i)) == Pow2(ws[i]) * Pow2(Suf(ws, i + 1))
  {
    Pow2Add(ws[i], Suf(ws, i + 1));
  }

  lemma {:induction false} TotalSplit(ws: seq<nat>, i: nat)
    requires i <= |ws|
    ensures Pow2(Total(ws)) == Pow2(Pre(ws, i)) * Pow2(Suf(ws, i))
  {
    assert Total(ws) == Pre(ws, i) + Suf(ws, i);
    Pow2Add(Pre(ws, i), Suf(ws, i));
  }

  lemma {:induction false} PrefixEnds(ws: seq<nat>, id: nat)
    ensures Prefix(ws, 0, id) == 0 && Prefix(ws, |ws|, id) == Key(ws, id)
  {
    assert Suf(ws, 0) == Total(ws) && Suf(ws, |ws|) == 0;
    ModShrinks(Key(ws, id), Pow2(Total(ws)));
  }

  /** One level down: the prefix is multiplied and the digit added; the digit fits its level. */
  lemma {:induction false} PrefixStep(ws: seq<nat>, i: nat, id: nat)
    requires i < |ws|
    ensures Digit(ws, i, id) < Pow2(ws[i])
    ensures Prefix(ws, i + 1, id) == Prefix(ws, i, id) * Pow2(ws[i]) + Digit(ws, i, id)
    ensures Prefix(ws, i + 1, id) / Pow2(ws[i]) == Prefix(ws, i, id)
    ensures Prefix(ws, i + 1, id) % Pow2(ws[i]) == Digit(ws, i, id)
  {
    SufStep(ws, i);
    DivTwice(Key(ws, id), Pow2(ws[i]), Pow2(Suf(ws, i + 1)), Pow2(Suf(ws, i)));
    DigitOfKey(ws, i, id);
    DivMod(Prefix(ws, i + 1, id), Pow2(ws[i]));
  }

  /** A digit depends on the distinguished part of the id only. */
  lemma {:induction false} DigitOfKey(ws: seq<nat>, i: nat, id: nat)
    requires i < |ws|
    ensures Digit(ws, i, id) == Digit(ws, i, Key(ws, id))
  {
    TotalSplit(ws, i);
    DivTwice(id, Pow2(Pre(ws, i)), Pow2(Suf(ws, i)), Pow2(Total(ws)));
  }

  lemma {:induction false} KeyOfKey(ws: seq<nat>, id: nat)
    ensures Key(ws, id) < Pow2(Total(ws)) && Key(ws, Key(ws, id)) == Key(ws, id)
  {
    ModShrinks(Key(ws, id), Pow2(Total(ws)));
  }

  /** Reading the first `i` digits back gives the prefix. */
  lemma {:induction false} CodeOfDigits(ws: seq<nat>, id: nat, i: nat)
    requires i <= |ws|
    ensures Code(ws, Digits(ws, id), i) == Prefix(ws, i, id)
  {
    if i == 0 {
      PrefixEnds(ws, id);
    } else {
      CodeOfDigits(ws, id, i - 1);
      PrefixStep(ws, i - 1, id);
    }
  }

  lemma {:induction false} CodeBound(ws: seq<nat>, ds: seq<nat>, i: nat)
    requires IsDigits(ws, ds) && i <= |ws|
    ensures Code(ws, ds, i) < Pow2(Pre(ws, i))
  {
    if i > 0 {
      CodeBound(ws, ds, i - 1);
      Pow2Add(Pre(ws, i - 1), ws[i - 1]);
      TwoDigits(Code(ws, ds, i - 1), Pow2(Pre(ws, i - 1)), ds[i - 1], Pow2(ws[i - 1]));
    }
  }

  /** The number built from digits has those digits: its prefix at level `i` is what the first `i` digits give. */
  lemma {:induction false} PrefixOfCode(ws: seq<nat>, ds: seq<nat>, i: nat)
    requires IsDigits(ws, ds) && i <= |ws|
    ensures Prefix(ws, i, Code(ws, ds, |ws|)) == Code(ws, ds, i)
    decreases |ws| - i
  {
    var id := Code(ws, ds, |ws|);
    if i == |ws| {
      CodeBound(ws, ds, |ws|);
      PrefixEnds(ws, id);
      ModShrinks(id, Pow2(Total(ws)));
    } else {
      PrefixOfCode(ws, ds, i + 1);
      PrefixStep(ws, i, id);
      Split(Code(ws, ds, i), Pow2(ws[i]), ds[i]);
    }
  }

  lemma {:induction false} DigitsOfCode(ws: seq<nat>, ds: seq<nat>)
    requires IsDigits(ws, ds)
    ensures Code(ws, ds, |ws|) < Pow2(Total(ws)) && Digits(ws, Code(ws, ds, |ws|)) == ds
  {
    CodeBound(ws, ds, |ws|);
    var n := Code(ws, ds, |ws|);
    forall i | 0 <= i < |ws| ensures Digit(ws, i, n) == ds[i] {
      PrefixOfCode(ws, ds, i + 1);
      PrefixStep(ws, i, n);
      Split(Code(ws, ds, i), Pow2(ws[i]), ds[i]);
    }
  }

  lemma {:induction false} DigitsFit(ws: seq<nat>, id: nat)
    ensures IsDigits(ws, Digits(ws, id))
  {
    forall i | 0 <= i < |ws| ensures Digit(ws, i, id) < Pow2(ws[i]) {
      PrefixStep(ws, i, id);
    }
  }

  /** Masks and shifts are a bijection between the ids below `2^total` and the digit sequences: reading back the digits of
      an id gives the id, and the digits of the number read back are the digits. */
  lemma {:induction false} DigitsBijective(ws: seq<nat>, id: nat, ds: seq<nat>)
    ensures IsDigits(ws, Digits(ws, id))
    ensures id < Pow2(Total(ws)) ==> Code(ws, Digits(ws, id), |ws|) == id
    ensures IsDigits(ws, ds) ==> Code(ws, ds, |ws|) < Pow2(Total(ws)) && Digits(ws, Code(ws, ds, |ws|)) == ds
  {
    DigitsFit(ws, id);
    if id < Pow2(Total(ws)) {
      CodeOfDigits(ws, id, |ws|);
      PrefixEnds(ws, id);
      ModShrinks(id, Pow2(Total(ws)));
    }
    if IsDigits(ws, ds) {
      DigitsOfCode(ws, ds);
    }
  }

  // ----- The bit operations behind a digit -----

  /** Bitwise and. */
  function And(x: nat, y: nat): nat
    decreases x
  {
    if x == 0 || y == 0 then 0 else 2 * And(x / 2, y / 2) + (x % 2) * (y % 2)
  }

  /** Shifting a 64-bit word: what leaves it on the left is lost. */
  function Shl(x: nat, k: nat): nat {
    Remainder(x * Pow2(k), Pow2(64))
  }

  function Shr(x: nat, k: nat): nat
    decreases k
  {
    if k == 0 then x else Shr(x / 2, k - 1)
  }

  lemma {:induction false} ShrDivides(x: nat, k: nat)
    ensures Shr(x, k) == x / Pow2(k)
  {
    if k > 0 {
      ShrDivides(x / 2, k - 1);
      DivTwice(x, Pow2(k - 1), 2, Pow2(k));
    }
  }

  /** A mask of `n` ones keeps the last `n` bits. */
  lemma {:induction false} AndMask(x: nat, n: nat)
    ensures And(x, Pow2(n) - 1) == x % Pow2(n)
  {
    if n == 0 || x == 0 {
      ModShrinks(0, Pow2(n));
    } else {
      var m := Pow2(n - 1);
      AndMask(x / 2, n - 1);
      assert Pow2(n) - 1 == 2 * (m - 1) + 1;
      DivTwice(x, m, 2, Pow2(n));
      LastBit(x, m);
    }
  }

  lemma {:induction false} LastBit(x: nat, m: nat)
    requires m > 0
    ensures x % (2 * m) == 2 * ((x / 2) % m) + x % 2
  {
    var q := x / 2;
    DivMod(q, m);
    assert x == (q / m) * (2 * m) + (2 * (q % m) + x % 2);
    Split(q / m, 2 * m, 2 * (q % m) + x % 2);
  }

  /** One shifted below the top of a word is a power of two. */
  lemma {:induction false} ShlOne(k: nat)
    requires k < 64
    ensures Shl(1, k) == Pow2(k)
  {
    Pow2Monotone(k, 63);
    assert Pow2(64) == 2 * Pow2(63);
    ModShrinks(Pow2(k), Pow2(64));
  }

  /** The expression of the tree's loops, on running sums of widths. */
  function MaskAndShift(id: nat, total: nat, above: nat, upTo: nat): nat
    requires above <= upTo <= total && total < 64
  {
    ShlOne(total - above);
    Shr(And(id, Shl(1, total - above) - 1), total - upTo)
  }

  /** As long as the widths fit a word, masking and shifting the way the loops do yields the digit. */
  lemma {:induction false} MaskAndShiftIsDigit(ws: seq<nat>, i: nat, id: nat)
    requires i < |ws| && Total(ws) < 64
    ensures Pre(ws, i) <= Pre(ws, i + 1) <= Total(ws)
    ensures MaskAndShift(id, Total(ws), Pre(ws, i), Pre(ws, i + 1)) == Digit(ws, i, id)
  {
    PreMonotone(ws, i, |ws|);
    PreMonotone(ws, i + 1, |ws|);
    ShlOne(Suf(ws, i));
    AndMask(id, Suf(ws, i));
    ShrDivides(id % Pow2(Suf(ws, i)), Suf(ws, i + 1));
  }

  /** Two ids have the same prefix at level `i` exactly if their first `i` digits agree. */
  lemma {:induction false} PrefixIsDigits(ws: seq<nat>, i: nat, a: nat, b: nat)
    requires i <= |ws|
    ensures Prefix(ws, i, a) == Prefix(ws, i, b) <==> Digits(ws, a)[..i] == Digits(ws, b)[..i]
  {
    if i == 0 {
      PrefixEnds(ws, a);
      PrefixEnds(ws, b);
    } else {
      PrefixIsDigits(ws, i - 1, a, b);
      PrefixStep(ws, i - 1, a);
      PrefixStep(ws, i - 1, b);
      assert Digits(ws, a)[..i] == Digits(ws, a)[..i - 1] + [Digit(ws, i - 1, a)];
      assert Digits(ws, b)[..i] == Digits(ws, b)[..i - 1] + [Digit(ws, i - 1, b)];
    }
  }

  /** The widths a tree keeps of a width vector: the non-zero ones. */
  function NonZero(ws: seq<nat>): seq<nat> {
    if ws == [] then []
    else NonZero(ws[..|ws| - 1]) + (if ws[|ws| - 1] == 0 then [] else [ws[|ws| - 1]])
  }

  lemma {:induction false} NonZeroExists(ws: seq<nat>)
    ensures |NonZero(ws)| > 0 <==> exists i | 0 <= i < |ws| :: ws[i] != 0
  {
    if ws != [] {
      var init := ws[..|ws| - 1];
      NonZeroExists(init);
      if exists i | 0 <= i < |init| :: init[i] != 0 {
        var i :| 0 <= i < |init| && init[i] != 0;
        assert ws[i] != 0;
      }
      assert forall i | 0 <= i < |init| :: init[i] == ws[i];
    }
  }

  lemma {:induction false} PreAppend(ws: seq<nat>, w: nat, i: nat)
    requires i <= |ws|
    ensures Pre(ws + [w], i) == Pre(ws, i)
  {
    if i > 0 {
      PreAppend(ws, w, i - 1);
    }
  }

  /** Dropping zero widths keeps the total and leaves no zero. */
  lemma {:induction false} NonZeroTotal(ws: seq<nat>)
    ensures Total(NonZero(ws)) == Total(ws) && 0 !in NonZero(ws)
  {
    if ws != [] {
      var init := ws[..|ws| - 1];
      NonZeroTotal(init);
      assert ws == init + [ws[|ws| - 1]];
      PreAppend(init, ws[|ws| - 1], |init|);
      var kept := NonZero(init);
      if ws[|ws| - 1] == 0 {
        assert kept + [] == kept;
      } else {
        PreAppend(kept, ws[|ws| - 1], |kept|);
      }
    }
  }
}
