/** Folds over lists of reals used by tAI.py: the product and geometric
    mean of `calculate_geometric_mean`, `np.max`, the filter of non-zero
    values, and `np.mean`. */
module Means {
  import opened Outcomes

  /** `pow(x, 1/n)` of the Python math library: the real n-th root. Its
      floating-point computation is not modelled; the model takes it as a
      parameter. */
  type Root = (real, nat) -> real

  function Power(x: real, n: nat): real {
    if n == 0 then 1.0 else x * Power(x, n - 1)
  }

  /** What a root function must satisfy to be the n-th root on the
      non-negative reals. */
  ghost predicate IsNthRoot(root: Root) {
    forall x: real, n: nat | 0.0 <= x && 0 < n :: root(Power(x, n), n) == x
  }

  /** `reduce(mul, values)`, folding from the left. */
  function Product(values: seq<real>): (r: real)
    ensures (forall i | 0 <= i < |values| :: values[i] >= 0.0) ==> r >= 0.0
    ensures (forall i | 0 <= i < |values| :: values[i] > 0.0) ==> r > 0.0
  {
    if values == [] then 1.0
    else
      var p := Product(values[..|values| - 1]);
      var x := values[|values| - 1];
      assert p >= 0.0 && x >= 0.0 ==> p * x >= 0.0;
      assert p > 0.0 && x > 0.0 ==> p * x > 0.0;
      p * x
  }

  /** `calculate_geometric_mean`: the n-th root of the product of the n
      values. An empty list fails: `reduce` has no initial value and
      `1/length` divides by zero. */
  function GeometricMean(values: seq<real>, root: Root): (r: Result<real>)
    ensures r.Err? <==> values == []
    ensures r.Err? ==> r.failure == EmptyGeometricMean
    ensures r.Ok? ==> r.value == root(Product(values), |values|)
  {
    if values == [] then Err(EmptyGeometricMean)
    else Ok(root(Product(values), |values|))
  }

  lemma {:induction false} ProductOfConstant(x: real, n: nat)
    ensures Product(seq(n, _ => x)) == Power(x, n)
  {
    if n > 0 {
      var s := seq(n, _ => x);
      assert s[..n - 1] == seq(n - 1, _ => x);
      ProductOfConstant(x, n - 1);
    }
  }

  /** The geometric mean of n copies of one non-negative value is that value. */
  lemma GeometricMeanOfConstant(x: real, n: nat, root: Root)
    requires IsNthRoot(root)
    requires 0.0 <= x && 0 < n
    ensures GeometricMean(seq(n, _ => x), root) == Ok(x)
  {
    ProductOfConstant(x, n);
  }

  /** The position of a largest value (the first one met from the left). */
  function ArgMax(values: seq<real>): (i: nat)
    requires values != []
    ensures i < |values|
    ensures forall j | 0 <= j < |values| :: values[j] <= values[i]
  {
    if |values| == 1 then 0
    else
      var i := ArgMax(values[..|values| - 1]);
      assert forall j | 0 <= j < |values| - 1 :: values[j] == values[..|values| - 1][j];
      if values[|values| - 1] > values[i] then |values| - 1 else i
  }

  /** `np.max(values)`: the largest value. */
  function Max(values: seq<real>): (m: real)
    requires values != []
    ensures m in values
    ensures forall i | 0 <= i < |values| :: values[i] <= m
  {
    values[ArgMax(values)]
  }

  /** A value that bounds all the others is the maximum. */
  lemma MaxUnique(values: seq<real>, i: nat)
    requires i < |values|
    requires forall j | 0 <= j < |values| :: values[j] <= values[i]
    ensures Max(values) == values[i]
  {
    var a := ArgMax(values);
    assert values[a] <= values[i] && values[i] <= values[a];
  }

  /** x added to itself k times: multiplication by a natural number,
      written so that reasoning about it stays linear. */
  function Times(k: nat, x: real): real {
    if k == 0 then 0.0 else Times(k - 1, x) + x
  }

  lemma {:induction false} TimesIsProduct(k: nat, x: real)
    ensures Times(k, x) == k as real * x
  {
    if k > 0 {
      TimesIsProduct(k - 1, x);
    }
  }

  lemma {:induction false} TimesMonotone(k: nat, x: real, y: real)
    requires x <= y
    ensures Times(k, x) <= Times(k, y)
  {
    if k > 0 {
      TimesMonotone(k - 1, x, y);
    }
  }

  lemma {:induction false} TimesAdd(k: nat, x: real, y: real)
    ensures Times(k, x + y) == Times(k, x) + Times(k, y)
  {
    if k > 0 {
      TimesAdd(k - 1, x, y);
    }
  }

  /** For k > 0, k times a non-negative value is non-negative, and zero
      exactly when the value is. */
  lemma {:induction false} TimesSign(k: nat, x: real)
    requires k > 0 && x >= 0.0
    ensures Times(k, x) >= 0.0
    ensures Times(k, x) == 0.0 <==> x == 0.0
  {
    if k > 1 {
      TimesSign(k - 1, x);
    }
  }

  lemma RatioOfProducts(K: real, a: real, b: real)
    requires K > 0.0 && b != 0.0
    ensures (K * a) / (K * b) == a / b
  {
  }

  /** Ratios are unchanged when both sides are taken k times. */
  lemma TimesRatio(k: nat, a: real, b: real)
    requires k > 0 && b != 0.0
    ensures Times(k, b) != 0.0 && Times(k, a) / Times(k, b) == a / b
  {
    TimesIsProduct(k, a);
    TimesIsProduct(k, b);
    RatioOfProducts(k as real, a, b);
  }

  /** Taking every value k times takes the maximum k times. */
  lemma MaxScales(values: seq<real>, scaled: seq<real>, k: nat)
    requires values != [] && |scaled| == |values|
    requires forall j | 0 <= j < |values| :: scaled[j] == Times(k, values[j])
    ensures Max(scaled) == Times(k, Max(values))
  {
    var i := ArgMax(values);
    forall j | 0 <= j < |scaled| ensures scaled[j] <= scaled[i] {
      TimesMonotone(k, values[j], values[i]);
    }
    MaxUnique(scaled, i);
  }

  /** `[w for w in values if w != 0]`. */
  function NonZero(values: seq<real>): (r: seq<real>)
    ensures forall x :: x in r <==> x in values && x != 0.0
    ensures |r| <= |values|
  {
    if values == [] then []
    else
      var front := NonZero(values[..|values| - 1]);
      var x := values[|values| - 1];
      assert values == values[..|values| - 1] + [x];
      if x != 0.0 then front + [x] else front
  }

  /** Every non-zero value is kept as many times as it occurs. */
  lemma {:induction false} NonZeroMultiplicity(values: seq<real>)
    ensures multiset(NonZero(values)) == multiset(values)[0.0 := 0]
  {
    if values != [] {
      var front := values[..|values| - 1];
      var x := values[|values| - 1];
      assert values == front + [x];
      assert multiset(values) == multiset(front) + multiset{x};
      NonZeroMultiplicity(front);
    }
  }

  /** The filter keeps the order of the values: one more value is kept at
      the end exactly when it is not zero. */
  lemma NonZeroSnoc(values: seq<real>, x: real)
    ensures NonZero(values + [x]) == NonZero(values) + (if x != 0.0 then [x] else [])
  {
    assert (values + [x])[..|values|] == values;
  }

  function Sum(values: seq<real>): real {
    if values == [] then 0.0 else Sum(values[..|values| - 1]) + values[|values| - 1]
  }

  /** `np.mean(values)`; the mean of no values is NaN, here None. */
  function Mean(values: seq<real>): (r: Option<real>)
    ensures r.None? <==> values == []
    ensures r.Some? ==> r.value * |values| as real == Sum(values)
  {
    if values == [] then None else Some(Sum(values) / |values| as real)
  }

  /** The sum of n copies of x. */
  lemma {:induction false} SumOfConstant(x: real, n: nat)
    ensures Sum(seq(n, _ => x)) == n as real * x
  {
    if n > 0 {
      assert seq(n, _ => x)[..n - 1] == seq(n - 1, _ => x);
      SumOfConstant(x, n - 1);
    }
  }

  /** The mean of n > 0 copies of x is x. */
  lemma MeanOfConstant(x: real, n: nat)
    requires n > 0
    ensures Mean(seq(n, _ => x)) == Some(x)
  {
    var s := seq(n, _ => x);
    SumOfConstant(x, n);
    var k := n as real;
    assert Sum(s) == k * x && |s| as real == k;
    assert k * x / k == x;
  }

  /** Every value counts as often as it occurs: the mean of 1, 1 and 4 is 2,
      where the mean of the distinct values 1 and 4 would be 2.5. */
  lemma MeanCountsRepeats()
    ensures Mean([1.0, 1.0, 4.0]) == Some(2.0)
  {
    assert [1.0, 1.0, 4.0][..2] == [1.0, 1.0];
    assert [1.0, 1.0][..1] == [1.0];
    assert [1.0][..0] == [];
  }

  lemma {:induction false} SumBounds(values: seq<real>, lo: real, hi: real)
    requires forall i | 0 <= i < |values| :: lo <= values[i] <= hi
    ensures |values| as real * lo <= Sum(values) <= |values| as real * hi
  {
    if values != [] {
      SumBounds(values[..|values| - 1], lo, hi);
    }
  }

  /** A mean lies between any lower and upper bound of the values. */
  lemma MeanBounds(values: seq<real>, lo: real, hi: real)
    requires values != []
    requires forall i | 0 <= i < |values| :: lo <= values[i] <= hi
    ensures lo <= Mean(values).value <= hi
  {
    SumBounds(values, lo, hi);
    var n := |values| as real;
    var m := Sum(values) / n;
    assert Sum(values) == m * n;
    assert n * lo <= m * n <= n * hi;
    assert (m - lo) * n >= 0.0 && (hi - m) * n >= 0.0;
  }
}
