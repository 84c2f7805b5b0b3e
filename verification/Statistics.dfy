/** Statistical descriptors of the columns of a matrix, over exact reals. */
module Statistics {
  import opened Arithmetic
  import opened Distances
  import opened Ordering

  const SSD_LEN := 7

  function Sum(s: seq<real>): real {
    if s == [] then 0.0 else Sum(s[..|s| - 1]) + s[|s| - 1]
  }

  function Squares(s: seq<real>): real {
    if s == [] then 0.0 else Squares(s[..|s| - 1]) + Product(s[|s| - 1], s[|s| - 1])
  }

  function Mean(s: seq<real>): real
    requires s != []
  {
    Sum(s) / |s| as real
  }

  function Product(x: real, y: real): real { x * y }

  /** The squared distances from a centre. */
  function Deviations(s: seq<real>, m: real): real {
    if s == [] then 0.0 else Deviations(s[..|s| - 1], m) + Product(s[|s| - 1] - m, s[|s| - 1] - m)
  }

  /** The sample variance by its definition. */
  function Variance(s: seq<real>): real
    requires s != []
  {
    if |s| == 1 then 0.0 else Deviations(s, Mean(s)) / (|s| - 1) as real
  }

  function Expanded(squares: real, sum: real, n: real, m: real): real {
    squares - 2.0 * m * sum + n * (m * m)
  }

  lemma {:induction false} Expand(s: seq<real>, m: real)
    ensures Deviations(s, m) == Expanded(Squares(s), Sum(s), |s| as real, m)
  {
    if s != [] {
      hide Product, Expanded;
      var init, x := s[..|s| - 1], s[|s| - 1];
      Expand(init, m);
      ExpandStep(Squares(init), Sum(init), |init| as real, x, m);
      assert |s| as real == |init| as real + 1.0;
    }
  }

  lemma ExpandStep(a: real, b: real, n: real, x: real, m: real)
    ensures Expanded(a, b, n, m) + Product(x - m, x - m) == Expanded(a + Product(x, x), b + x, n + 1.0, m)
  {
    assert (x - m) * (x - m) == x * x - 2.0 * m * x + m * m;
    assert 2.0 * m * (b + x) == 2.0 * m * b + 2.0 * m * x;
    assert (n + 1.0) * (m * m) == n * (m * m) + m * m;
  }

  /** What the one-pass formula computes is the mean-centred variance. */
  lemma OnePassVariance(s: seq<real>)
    requires |s| > 1
    ensures (Squares(s) - |s| as real * Mean(s) * Mean(s)) / (|s| - 1) as real == Variance(s)
  {
    hide Deviations, Squares, Sum;
    var m, n := Mean(s), |s| as real;
    Expand(s, m);
    assert Sum(s) == n * m by {
      DivideBack(Sum(s), n);
    }
    Complete(Squares(s), n, m);
  }

  lemma DivideBack(x: real, n: real)
    requires n != 0.0
    ensures n * (x / n) == x
  {
  }

  lemma Complete(squares: real, n: real, m: real)
    ensures squares - 2.0 * m * (n * m) + n * (m * m) == squares - n * m * m
  {
    assert m * (n * m) == n * (m * m) == n * m * m;
  }

  lemma {:induction false} DeviationsNotNegative(s: seq<real>, m: real)
    ensures Deviations(s, m) >= 0.0
    ensures Deviations(s, m) == 0.0 <==> forall i :: 0 <= i < |s| ==> s[i] == m
  {
    hide Product;
    if s != [] {
      var init, x := s[..|s| - 1], s[|s| - 1];
      DeviationsNotNegative(init, m);
      SquareNotNegative(x - m);
      assert s == init + [x];
      assert forall i :: 0 <= i < |init| ==> s[i] == init[i];
      if x == m {
        assert Deviations(s, m) == Deviations(init, m);
      } else {
        assert Deviations(s, m) > 0.0 && s[|s| - 1] != m;
      }
    }
  }

  lemma SquareNotNegative(x: real)
    ensures x != 0.0 ==> Product(x, x) > 0.0
    ensures x == 0.0 ==> Product(x, x) == 0.0
  {
    if x < 0.0 {
      NegativeTimes(x, x);
    } else if x > 0.0 {
      PositiveTimes(x, x);
    }
  }

  lemma PositiveTimes(x: real, y: real)
    requires x > 0.0 && y > 0.0
    ensures Product(x, y) > 0.0
  {
  }

  lemma NegativeTimes(x: real, y: real)
    requires x < 0.0 && y < 0.0
    ensures Product(x, y) > 0.0
  {
  }

  /** The variance is never negative, and zero exactly when all values are equal. */
  lemma VarianceNotNegative(s: seq<real>)
    requires s != []
    ensures Variance(s) >= 0.0
    ensures Variance(s) == 0.0 <==> forall i, j :: 0 <= i < |s| && 0 <= j < |s| ==> s[i] == s[j]
  {
    var m := Mean(s);
    DeviationsNotNegative(s, m);
    if |s| > 1 {
      var d, k := Deviations(s, m), (|s| - 1) as real;
      assert d / k >= 0.0 && (d / k == 0.0 <==> d == 0.0);
      if forall i, j :: 0 <= i < |s| && 0 <= j < |s| ==> s[i] == s[j] {
        SumBetween(s, s[0], s[0]);
        MeanBetween(s, s[0], s[0]);
      }
    }
  }

  lemma {:induction false} SumBetween(s: seq<real>, lo: real, hi: real)
    requires forall i :: 0 <= i < |s| ==> lo <= s[i] <= hi
    ensures |s| as real * lo <= Sum(s) <= |s| as real * hi
  {
    if s != [] {
      var init := s[..|s| - 1];
      SumBetween(init, lo, hi);
      var n := |init| as real;
      assert (n + 1.0) * lo == n * lo + lo && (n + 1.0) * hi == n * hi + hi;
    }
  }

  lemma MeanBetween(s: seq<real>, lo: real, hi: real)
    requires s != [] && forall i :: 0 <= i < |s| ==> lo <= s[i] <= hi
    ensures lo <= Mean(s) <= hi
  {
    SumBetween(s, lo, hi);
    var n, m := |s| as real, Mean(s);
    DivideBack(Sum(s), n);
    if m < lo {
      MulLess(n, m, lo);
    }
    if m > hi {
      MulLess(n, hi, m);
    }
  }

  lemma MulLess(n: real, x: real, y: real)
    requires n > 0.0 && x < y
    ensures n * x < n * y
  {
    assert n * (y - x) > 0.0;
    assert n * (y - x) == n * y - n * x;
  }

  /** The middle of an ascending sequence, or halfway between the two in the middle. */
  function Middle(s: seq<real>): real
    requires s != []
  {
    if |s| % 2 == 0 then (s[|s| / 2 - 1] + s[|s| / 2]) / 2.0 else s[(|s| + 1) / 2 - 1]
  }

  /** Half of the values, at least, are not above the median, and half are not below. */
  predicate Halves(s: seq<real>, m: real) {
    && (forall i :: 0 <= i < (|s| + 1) / 2 ==> s[i] <= m)
    && (forall i :: |s| / 2 <= i < |s| ==> m <= s[i])
  }

  lemma MiddleHalves(s: seq<real>)
    requires s != [] && Sorted(RealLeq, s)
    ensures Halves(s, Middle(s)) && s[0] <= Middle(s) <= s[|s| - 1]
  {
    var lo, hi := (|s| + 1) / 2 - 1, |s| / 2;
    assert lo <= hi && s[lo] <= Middle(s) <= s[hi] by {
      assert lo < hi ==> RealLeq(s[lo], s[hi]);
    }
    forall i | 0 <= i <= lo ensures s[i] <= Middle(s) {
      assert i < lo ==> RealLeq(s[i], s[lo]);
    }
    forall i | hi <= i < |s| ensures Middle(s) <= s[i] {
      assert hi < i ==> RealLeq(s[hi], s[i]);
    }
  }

  // ------------------------------------------------------------ the higher moments

  function Cube(x: real): real { x * x * x }

  function Fourth(x: real): real { Product(Product(x, x), Product(x, x)) }

  function Cubes(s: seq<real>, m: real): real {
    if s == [] then 0.0 else Cubes(s[..|s| - 1], m) + Cube(s[|s| - 1] - m)
  }

  function Fourths(s: seq<real>, m: real): real {
    if s == [] then 0.0 else Fourths(s[..|s| - 1], m) + Fourth(s[|s| - 1] - m)
  }

  /** A function for the power 3/2, of which only the sign counts here. */
  ghost predicate IsPower(power: real -> real) {
    forall x :: x > 0.0 ==> power(x) > 0.0
  }

  function Skewness(s: seq<real>, power: real -> real): real
    requires s != [] && IsPower(power)
  {
    var v := Variance(s);
    VarianceNotNegative(s);
    if v == 0.0 then 0.0 else Cubes(s, Mean(s)) / |s| as real / power(v)
  }

  function Kurtosis(s: seq<real>): real
    requires s != []
  {
    var v := Variance(s);
    VarianceNotNegative(s);
    SquareNotNegative(v);
    if v == 0.0 then 0.0 else Fourths(s, Mean(s)) / |s| as real / Product(v, v)
  }

  /** The squared distances from a centre, one by one. */
  function Squared(s: seq<real>, m: real): (r: seq<real>)
    ensures |r| == |s|
  {
    Map(x => Product(x - m, x - m), s)
  }

  lemma {:induction false} SumsOfSquared(s: seq<real>, m: real)
    ensures Sum(Squared(s, m)) == Deviations(s, m) && Squares(Squared(s, m)) == Fourths(s, m)
  {
    if s != [] {
      var init := s[..|s| - 1];
      SumsOfSquared(init, m);
      assert Squared(s, m)[..|s| - 1] == Squared(init, m);
    }
  }

  /** The mean of the fourth powers is at least the square of the mean of the squares. */
  lemma FourthsAtLeast(s: seq<real>, m: real)
    requires s != []
    ensures Fourths(s, m) * |s| as real >= Product(Deviations(s, m), Deviations(s, m))
  {
    hide Deviations, Fourths, Squared, Sum, Squares;
    var y, n := Squared(s, m), |s| as real;
    SumsOfSquared(s, m);
    var c := Mean(y);
    Expand(y, c);
    DeviationsNotNegative(y, c);
    DivideBack(Sum(y), n);
    Spread4(Fourths(s, m), Deviations(s, m), n, c);
  }

  lemma Spread4(fourths: real, sum: real, n: real, c: real)
    requires n > 0.0 && n * c == sum && Expanded(fourths, sum, n, c) >= 0.0
    ensures fourths * n >= Product(sum, sum)
  {
    Complete(fourths, n, c);
    NotNegativeTimes(fourths - n * c * c, n);
    Distribute(fourths, n * c * c, n);
    SquareOfSum(n, c);
  }

  /** The kurtosis of values that are not all equal is at least the square of 1 - 1 / n. */
  lemma KurtosisAtLeast(s: seq<real>)
    requires s != [] && Variance(s) != 0.0
    ensures |s| > 1 && Kurtosis(s) >= Product((|s| - 1) as real / |s| as real, (|s| - 1) as real / |s| as real)
  {
    hide Deviations, Fourths, Variance, Mean, Product;
    VarianceNotNegative(s);
    FourthsAtLeast(s, Mean(s));
    var n, v := |s| as real, Variance(s);
    VarianceTimes(s, n, v);
    Bound4(Fourths(s, Mean(s)), v, n);
  }

  lemma VarianceTimes(s: seq<real>, n: real, v: real)
    requires s != [] && Variance(s) == v != 0.0 && n == |s| as real
    ensures |s| > 1
    ensures Product(Deviations(s, Mean(s)), Deviations(s, Mean(s))) == Product((n - 1.0) * v, (n - 1.0) * v)
  {
    hide Deviations, Mean;
    DivideBack(Deviations(s, Mean(s)), n - 1.0);
  }

  lemma Bound4(fourths: real, v: real, n: real)
    requires n > 1.0 && v > 0.0
    requires fourths * n >= Product((n - 1.0) * v, (n - 1.0) * v)
    ensures Product(v, v) > 0.0 && fourths / n / Product(v, v) >= Product((n - 1.0) / n, (n - 1.0) / n)
  {
    var q, w := (n - 1.0) / n, v * v;
    DivideBack(n - 1.0, n);
    PositiveTimes(v, v);
    assert fourths * n >= (q * n) * (q * n) * w by {
      assert ((n - 1.0) * v) * ((n - 1.0) * v) == (n - 1.0) * (n - 1.0) * w;
    }
    assert (q * n) * (q * n) == q * q * (n * n);
    Quotient4(fourths, n, w, q * q);
  }

  lemma Quotient4(fourths: real, n: real, w: real, p: real)
    requires n > 0.0 && w > 0.0 && fourths * n >= p * (n * n) * w
    ensures fourths / n / w >= p
  {
    var r := fourths / n / w;
    DivideBack(fourths / n, w);
    DivideBack(fourths, n);
    assert fourths == n * (w * r);
    var m := w * (n * n);
    PositiveTimes(n, n);
    PositiveTimes(w, n * n);
    Regroup(n, w, r);
    assert p * (n * n) * w == m * p;
    if r < p {
      MulLess(m, r, p);
    }
  }

  lemma Distribute(x: real, y: real, n: real)
    ensures (x - y) * n == x * n - y * n
  {
  }

  lemma SquareOfSum(n: real, c: real)
    ensures n * c * c * n == Product(n * c, n * c)
  {
  }

  lemma Regroup(n: real, w: real, r: real)
    ensures n * (w * r) * n == w * (n * n) * r
  {
    assert n * (w * r) * n == n * n * (w * r);
  }

  lemma NotNegativeTimes(x: real, y: real)
    requires x >= 0.0 && y >= 0.0
    ensures x * y >= 0.0
  {
  }

  function Negate(x: real): real { -x }

  lemma {:induction false} MirroredSums(s: seq<real>, m: real)
    ensures Sum(Map(Negate, s)) == -Sum(s)
    ensures Deviations(Map(Negate, s), -m) == Deviations(s, m)
    ensures Cubes(Map(Negate, s), -m) == -Cubes(s, m)
    ensures Fourths(Map(Negate, s), -m) == Fourths(s, m)
  {
    if s != [] {
      var init, y := s[..|s| - 1], s[|s| - 1] - m;
      MirroredSums(init, m);
      assert Map(Negate, s)[..|s| - 1] == Map(Negate, init);
      MirroredPowers(y);
      assert -s[|s| - 1] - -m == -y;
    }
  }

  lemma MirroredPowers(y: real)
    ensures Product(-y, -y) == Product(y, y) && Cube(-y) == -Cube(y) && Fourth(-y) == Fourth(y)
  {
  }

  /** Mirroring the values turns mean and skewness around and leaves variance and kurtosis. */
  lemma Mirrored(s: seq<real>, power: real -> real)
    requires s != [] && IsPower(power)
    ensures var t := Map(Negate, s);
      && Mean(t) == -Mean(s) && Variance(t) == Variance(s)
      && Skewness(t, power) == -Skewness(s, power) && Kurtosis(t) == Kurtosis(s)
  {
    var n, v := |s| as real, Variance(s);
    MirroredSums(s, Mean(s));
    hide Sum, Deviations, Cubes, Fourths, Product;
    NegatedQuotient(Sum(s), n);
    VarianceNotNegative(s);
    NegatedQuotient(Cubes(s, Mean(s)), n);
    if v != 0.0 {
      NegatedQuotient(Cubes(s, Mean(s)) / n, power(v));
    }
  }

  lemma NegatedQuotient(x: real, n: real)
    requires n != 0.0
    ensures -x / n == -(x / n)
  {
  }

  // ------------------------------------------------------------------- one column

  function Column(matrix: seq<real>, cols: nat, rows: nat, b: nat): (s: seq<real>)
    requires b < cols && |matrix| == rows * cols
    ensures |s| == rows
  {
    seq(rows, i requires 0 <= i < rows => InMatrix(matrix, cols, rows, i, b))
  }

  function InMatrix(matrix: seq<real>, cols: nat, rows: nat, i: nat, b: nat): real
    requires i < rows && b < cols && |matrix| == rows * cols
  {
    RowFits(i, rows, cols);
    matrix[i * cols + b]
  }

  /** The descriptors of one column: mean, variance, skewness, kurtosis, median, least and greatest
      value. */
  ghost predicate Described(d: seq<real>, column: seq<real>, power: real -> real)
    requires column != [] && IsPower(power)
  {
    && |d| == SSD_LEN
    && d[0] == Mean(column) && d[1] == Variance(column)
    && d[2] == Skewness(column, power) && d[3] == Kurtosis(column)
    && var sorted := Sort(RealLeq, column);
    && |sorted| == |column| && d[4] == Middle(sorted) && d[5] == sorted[0] && d[6] == sorted[|column| - 1]
  }

  /** What the descriptors mean for the values of the column. */
  lemma DescribedMeaning(d: seq<real>, column: seq<real>, power: real -> real)
    requires column != [] && IsPower(power) && Described(d, column, power)
    ensures d[5] <= d[0] <= d[6] && d[5] <= d[4] <= d[6] && d[1] >= 0.0
    ensures d[5] in column && d[6] in column
    ensures forall x :: x in column ==> d[5] <= x <= d[6]
    ensures d[1] == 0.0 <==> d[5] == d[6]
    ensures d[1] == 0.0 ==> d[2] == 0.0 && d[3] == 0.0
    ensures d[1] != 0.0 ==> d[3] > 0.0
    ensures Halves(Sort(RealLeq, column), d[4])
  {
    if d[1] != 0.0 {
      KurtosisAtLeast(column);
      PositiveSquare(|column|);
    }
    hide Mean, Variance, Skewness, Kurtosis, Sort, Middle;
    RealOrder();
    SortSorts(RealLeq, column);
    var s := Sort(RealLeq, column);
    MiddleHalves(s);
    assert forall x :: x in column <==> x in multiset(s);
    forall x | x in column ensures s[0] <= x <= s[|s| - 1] {
      assert x in multiset(s) && x in s;
      var i :| 0 <= i < |s| && s[i] == x;
      assert i > 0 ==> RealLeq(s[0], s[i]);
      assert i < |s| - 1 ==> RealLeq(s[i], s[|s| - 1]);
    }
    assert s[0] in multiset(s) && s[|s| - 1] in multiset(s);
    assert forall i :: 0 <= i < |column| ==> column[i] in column;
    MeanBetween(column, s[0], s[|s| - 1]);
    VarianceNotNegative(column);
    Spread(column, s[0], s[|s| - 1]);
  }

  lemma PositiveSquare(n: nat)
    requires n > 1
    ensures Product((n - 1) as real / n as real, (n - 1) as real / n as real) > 0.0
  {
    var q := (n - 1) as real / n as real;
    assert q > 0.0;
    PositiveTimes(q, q);
  }

  lemma Spread(s: seq<real>, lo: real, hi: real)
    requires lo in s && hi in s && forall x :: x in s ==> lo <= x <= hi
    ensures lo == hi <==> forall i, j :: 0 <= i < |s| && 0 <= j < |s| ==> s[i] == s[j]
  {
    if lo == hi {
      forall i, j | 0 <= i < |s| && 0 <= j < |s| ensures s[i] == s[j] {
        assert s[i] in s && s[j] in s;
      }
    }
  }

  /** One pass over a column: its sum, its sum of squares and a copy. */
  method Scan(matrix: array<real>, cols: nat, rows: nat, b: nat) returns (adSum: real, adSum2: real, copy: seq<real>)
    requires b < cols && matrix.Length == rows * cols
    ensures copy == Column(matrix[..], cols, rows, b)
    ensures adSum == Sum(copy) && adSum2 == Squares(copy)
  {
    ghost var column := Column(matrix[..], cols, rows, b);
    adSum, adSum2, copy := 0.0, 0.0, [];
    var i := 0;
    while i < rows
      invariant 0 <= i <= rows
      invariant copy == column[..i] && adSum == Sum(copy) && adSum2 == Squares(copy)
    {
      RowFits(i, rows, cols);
      var dVal := matrix[i * cols + b];
      assert dVal == column[i] && column[..i + 1] == copy + [dVal];
      assert (copy + [dVal])[..i] == copy;
      adSum := adSum + dVal;
      adSum2 := adSum2 + dVal * dVal;
      copy := copy + [dVal];
      i := i + 1;
    }
    assert column[..rows] == column;
  }

  /** Mean and variance from the two sums. */
  method Moments(adSum: real, adSum2: real, rows: nat, ghost column: seq<real>) returns (dMean: real, dVar: real)
    requires 0 < rows == |column| && adSum == Sum(column) && adSum2 == Squares(column)
    ensures dMean == Mean(column) && dVar == Variance(column)
  {
    hide Deviations, Squares, Sum;
    dMean := adSum / rows as real;
    dVar := 0.0;
    if rows > 1 {
      dVar := (-1.0 * rows as real * dMean * dMean + adSum2) / (rows - 1) as real;
      OnePassVariance(column);
      Negated(rows as real, dMean, adSum2);
    }
  }

  lemma Negated(n: real, m: real, squares: real)
    ensures -1.0 * n * m * m + squares == squares - n * m * m
  {
    assert -1.0 * n * m * m == -(n * m * m);
  }

  lemma NoMoments(column: seq<real>, m: real)
    ensures Cubes(column[..0], m) == 0.0 && Fourths(column[..0], m) == 0.0
  {
  }

  lemma MomentsStep(column: seq<real>, i: nat, m: real)
    requires i < |column|
    ensures Cubes(column[..i + 1], m) == Cubes(column[..i], m) + Cube(column[i] - m)
    ensures Fourths(column[..i + 1], m) == Fourths(column[..i], m) + Fourth(column[i] - m)
  {
    hide Cube, Fourth;
    assert column[..i + 1][..i] == column[..i];
  }

  lemma ColumnAt(matrix: seq<real>, cols: nat, rows: nat, b: nat, i: nat)
    requires b < cols && |matrix| == rows * cols && i < rows && 0 <= i * cols + b < |matrix|
    ensures Column(matrix, cols, rows, b)[i] == matrix[i * cols + b]
  {
  }

  /** The second pass: the third and the fourth moment about the mean. */
  method HigherMoments(matrix: array<real>, cols: nat, rows: nat, b: nat, dMean: real)
    returns (adMomentum3: real, adMomentum4: real)
    requires b < cols && rows > 0 && matrix.Length == rows * cols
    ensures adMomentum3 == Cubes(Column(matrix[..], cols, rows, b), dMean) / rows as real
    ensures adMomentum4 == Fourths(Column(matrix[..], cols, rows, b), dMean) / rows as real
  {
    hide Cube, Fourth, Cubes, Fourths, Column;
    ghost var column := Column(matrix[..], cols, rows, b);
    adMomentum3, adMomentum4 := 0.0, 0.0;
    var i := 0;
    NoMoments(column, dMean);
    while i < rows
      invariant 0 <= i <= rows
      invariant adMomentum3 == Cubes(column[..i], dMean) && adMomentum4 == Fourths(column[..i], dMean)
    {
      RowFits(i, rows, cols);
      var dVal := matrix[i * cols + b];
      ColumnAt(matrix[..], cols, rows, b, i);
      MomentsStep(column, i, dMean);
      adMomentum3 := adMomentum3 + Cube(dVal - dMean);
      adMomentum4 := adMomentum4 + Fourth(dVal - dMean);
      i := i + 1;
    }
    assert column[..rows] == column;
    adMomentum3 := adMomentum3 / rows as real;
    adMomentum4 := adMomentum4 / rows as real;
  }

  /** Skewness and kurtosis, which are zero when all values are equal. */
  method Shape(adMomentum3: real, adMomentum4: real, dVar: real, power: real -> real, ghost column: seq<real>)
    returns (skewness: real, kurtosis: real)
    requires column != [] && IsPower(power) && dVar == Variance(column)
    requires adMomentum3 == Cubes(column, Mean(column)) / |column| as real
    requires adMomentum4 == Fourths(column, Mean(column)) / |column| as real
    ensures skewness == Skewness(column, power) && kurtosis == Kurtosis(column)
  {
    hide Cubes, Fourths, Mean, Variance;
    VarianceNotNegative(column);
    SquareNotNegative(dVar);
    skewness, kurtosis := 0.0, 0.0;
    if dVar != 0.0 {
      skewness := adMomentum3 / power(dVar);
      kurtosis := adMomentum4 / Product(dVar, dVar);
    }
  }

  /** The descriptors of one column, by two passes over it and a sort of the copy. */
  method DescribeColumn(matrix: array<real>, cols: nat, rows: nat, b: nat, power: real -> real) returns (d: seq<real>)
    requires b < cols && rows > 0 && matrix.Length == rows * cols && IsPower(power)
    ensures Described(d, Column(matrix[..], cols, rows, b), power)
  {
    hide Mean, Variance, Skewness, Kurtosis, Column, Sort;
    var adSum, adSum2, copy := Scan(matrix, cols, rows, b);
    var dMean, dVar := Moments(adSum, adSum2, rows, copy);
    var adMomentum3, adMomentum4 := HigherMoments(matrix, cols, rows, b, dMean);
    var skewness, kurtosis := Shape(adMomentum3, adMomentum4, dVar, power, copy);
    var adSorted := Sort(RealLeq, copy);
    RealOrder();
    SortSorts(RealLeq, copy);
    var median;
    if rows % 2 == 0 {
      median := (adSorted[rows / 2 - 1] + adSorted[rows / 2 + 1 - 1]) / 2.0;
    } else {
      median := adSorted[(rows + 1) / 2 - 1];
    }
    d := [dMean, dVar, skewness, kurtosis, median, adSorted[0], adSorted[rows - 1]];
  }

  /** The first n rows of the destination describe the first n columns. */
  ghost predicate ColumnsDescribed(dest: seq<real>, matrix: seq<real>, cols: nat, rows: nat, n: nat,
                                   power: real -> real)
    requires IsPower(power) && rows > 0 && |matrix| == rows * cols && n <= cols && |dest| == cols * SSD_LEN
  {
    forall b :: 0 <= b < n ==> Described(dest[b * SSD_LEN..b * SSD_LEN + SSD_LEN], Column(matrix, cols, rows, b), power)
  }

  lemma OneMoreColumn(before: seq<real>, after: seq<real>, matrix: seq<real>, cols: nat, rows: nat, n: nat,
                      power: real -> real)
    requires IsPower(power) && rows > 0 && |matrix| == rows * cols && n < cols && |before| == |after| == cols * SSD_LEN
    requires ColumnsDescribed(before, matrix, cols, rows, n, power)
    requires before[..n * SSD_LEN] == after[..n * SSD_LEN]
    requires Described(after[n * SSD_LEN..n * SSD_LEN + SSD_LEN], Column(matrix, cols, rows, n), power)
    ensures ColumnsDescribed(after, matrix, cols, rows, n + 1, power)
  {
    hide Described, Column;
    forall b | 0 <= b < n + 1
      ensures Described(after[b * SSD_LEN..b * SSD_LEN + SSD_LEN], Column(matrix, cols, rows, b), power)
    {
      if b < n {
        var from, to := b * SSD_LEN, b * SSD_LEN + SSD_LEN;
        assert after[from..to] == after[..n * SSD_LEN][from..to];
        assert before[from..to] == before[..n * SSD_LEN][from..to];
      }
    }
  }

  /** The descriptors of every column of a matrix stored row by row. */
  method GetSSD(matrix: array<real>, cols: nat, rows: nat, power: real -> real) returns (dest: array<real>)
    requires IsPower(power) && rows > 0 && matrix.Length == rows * cols
    ensures dest.Length == cols * SSD_LEN
    ensures ColumnsDescribed(dest[..], matrix[..], cols, rows, cols, power)
  {
    hide Described, Column, ColumnsDescribed;
    dest := new real[cols * SSD_LEN](_ => 0.0);
    assert ColumnsDescribed(dest[..], matrix[..], cols, rows, 0, power) by {
      NoColumnsYet(dest[..], matrix[..], cols, rows, power);
    }
    var b := 0;
    while b < cols
      invariant 0 <= b <= cols
      invariant ColumnsDescribed(dest[..], matrix[..], cols, rows, b, power)
    {
      ghost var before := dest[..];
      var d := DescribeColumn(matrix, cols, rows, b, power);
      DescribedLength(d, Column(matrix[..], cols, rows, b), power);
      Store(dest, b * SSD_LEN, d);
      OneMoreColumn(before, dest[..], matrix[..], cols, rows, b, power);
      b := b + 1;
    }
  }

  lemma NoColumnsYet(dest: seq<real>, matrix: seq<real>, cols: nat, rows: nat, power: real -> real)
    requires IsPower(power) && rows > 0 && |matrix| == rows * cols && |dest| == cols * SSD_LEN
    ensures ColumnsDescribed(dest, matrix, cols, rows, 0, power)
  {
  }

  lemma DescribedLength(d: seq<real>, column: seq<real>, power: real -> real)
    requires column != [] && IsPower(power) && Described(d, column, power)
    ensures |d| == SSD_LEN
  {
  }

  method Store(dest: array<real>, at: nat, d: seq<real>)
    requires at + |d| <= dest.Length
    modifies dest
    ensures dest[at..at + |d|] == d
    ensures dest[..at] == old(dest[..at]) && dest[at + |d|..] == old(dest[at + |d|..])
  {
    var i := 0;
    while i < |d|
      invariant 0 <= i <= |d|
      invariant forall j :: 0 <= j < dest.Length ==>
        dest[j] == if at <= j < at + i then d[j - at] else old(dest[j])
    {
      dest[at + i] := d[i];
      i := i + 1;
    }
  }
}
