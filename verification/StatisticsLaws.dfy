/** What the descriptors measure, stated by sums over the values and by mirroring. */
module StatisticsLaws {
  import opened Arithmetic
  import opened Distances
  import opened Ordering
  import opened Statistics

  /** The sum of one value is the value, and sums add up. */
  lemma {:induction false} SumConcat(s: seq<real>, t: seq<real>)
    ensures Sum(s + t) == Sum(s) + Sum(t)
    ensures forall x :: Sum([x]) == x
  {
    forall x ensures Sum([x]) == x {
      assert [x][..0] == [];
    }
    if t == [] {
      assert s + t == s;
    } else {
      SumConcat(s, t[..|t| - 1]);
      assert (s + t)[..|s + t| - 1] == s + t[..|t| - 1];
    }
  }

  lemma {:induction false} PowerSums(s: seq<real>, m: real)
    ensures Deviations(s, m) == Sum(Map(x => (x - m) * (x - m), s))
    ensures Cubes(s, m) == Sum(Map(x => (x - m) * (x - m) * (x - m), s))
    ensures Fourths(s, m) == Sum(Map(x => (x - m) * (x - m) * (x - m) * (x - m), s))
  {
    if s != [] {
      var init := s[..|s| - 1];
      PowerSums(init, m);
      assert Map(x => (x - m) * (x - m), s)[..|s| - 1] == Map(x => (x - m) * (x - m), init);
      assert Map(x => (x - m) * (x - m) * (x - m), s)[..|s| - 1] == Map(x => (x - m) * (x - m) * (x - m), init);
      assert Map(x => (x - m) * (x - m) * (x - m) * (x - m), s)[..|s| - 1]
          == Map(x => (x - m) * (x - m) * (x - m) * (x - m), init);
      FourthPower(s[|s| - 1] - m);
    }
  }

  lemma FourthPower(y: real)
    ensures Fourth(y) == y * y * y * y
  {
  }

  /** Mean, variance, skewness and kurtosis by sums of powers of the distances from the mean. */
  lemma DescriptorsBySums(s: seq<real>, power: real -> real)
    requires s != [] && IsPower(power)
    ensures var n, m, v := |s| as real, Mean(s), Variance(s);
      && n * m == Sum(s)
      && (|s| > 1 ==> (n - 1.0) * v == Sum(Map(x => (x - m) * (x - m), s)))
      && (|s| == 1 ==> v == 0.0)
      && (v != 0.0 ==>
            && n * (power(v) * Skewness(s, power)) == Sum(Map(x => (x - m) * (x - m) * (x - m), s))
            && n * (v * v * Kurtosis(s)) == Sum(Map(x => (x - m) * (x - m) * (x - m) * (x - m), s)))
  {
    hide Sum, Mean, Variance, Skewness, Kurtosis, Cubes, Fourths, Deviations, IsPower;
    PowerSums(s, Mean(s));
    VarianceNotNegative(s);
    MeanAndVariance(s);
    OneValue(s);
    if Variance(s) != 0.0 {
      HigherDescriptors(s, power);
    }
  }

  lemma OneValue(s: seq<real>)
    requires s != []
    ensures |s| == 1 ==> Variance(s) == 0.0
  {
  }

  lemma MeanAndVariance(s: seq<real>)
    requires s != []
    ensures |s| as real * Mean(s) == Sum(s)
    ensures |s| > 1 ==> (|s| as real - 1.0) * Variance(s) == Deviations(s, Mean(s))
  {
    hide Sum, Deviations;
    DivideBack(Sum(s), |s| as real);
    if |s| > 1 {
      DivideBack(Deviations(s, Mean(s)), |s| as real - 1.0);
    }
  }

  lemma HigherDescriptors(s: seq<real>, power: real -> real)
    requires s != [] && IsPower(power) && Variance(s) > 0.0
    ensures |s| as real * (power(Variance(s)) * Skewness(s, power)) == Cubes(s, Mean(s))
    ensures |s| as real * (Variance(s) * Variance(s) * Kurtosis(s)) == Fourths(s, Mean(s))
  {
    hide Variance, Mean, Cubes, Fourths;
    var n, v, c, f := |s| as real, Variance(s), Cubes(s, Mean(s)), Fourths(s, Mean(s));
    DivideBack(c, n);
    DivideBack(c / n, power(v));
    DivideBack(f, n);
    SquareNotNegative(v);
    DivideBack(f / n, Product(v, v));
  }

  /** Values with a long tail above the mean have a positive skewness, with one below it a negative one. */
  lemma SkewnessSign(s: seq<real>, power: real -> real)
    requires s != [] && IsPower(power) && Variance(s) != 0.0
    ensures var m := Mean(s);
      var third := Sum(Map(x => (x - m) * (x - m) * (x - m), s));
      (Skewness(s, power) > 0.0 <==> third > 0.0) && (Skewness(s, power) < 0.0 <==> third < 0.0)
  {
    var n, m, v, k := |s| as real, Mean(s), Variance(s), Skewness(s, power);
    var third := Sum(Map(x => (x - m) * (x - m) * (x - m), s));
    DescriptorsBySums(s, power);
    VarianceNotNegative(s);
    hide Sum, Mean, Variance, Skewness;
    SameSign(power(v), k);
    SameSign(n, power(v) * k);
  }

  lemma SameSign(f: real, x: real)
    requires f > 0.0
    ensures (f * x > 0.0 <==> x > 0.0) && (f * x < 0.0 <==> x < 0.0)
  {
    if x > 0.0 {
      PositiveTimes(f, x);
    } else if x < 0.0 {
      PositiveTimes(f, -x);
      assert f * -x == -(f * x);
    }
  }

  function Reversed(s: seq<real>): (r: seq<real>)
    ensures |r| == |s| && forall i :: 0 <= i < |s| ==> r[i] == -s[|s| - 1 - i]
  {
    seq(|s|, i requires 0 <= i < |s| => -s[|s| - 1 - i])
  }

  /** Mirroring the values turns the median around. */
  lemma MirroredMedian(s: seq<real>)
    requires s != []
    ensures Sort(RealLeq, s) != [] && Sort(RealLeq, Map(Negate, s)) != []
    ensures Middle(Sort(RealLeq, Map(Negate, s))) == -Middle(Sort(RealLeq, s))
  {
    hide Sort;
    RealOrder();
    SortSorts(RealLeq, s);
    var r := Sort(RealLeq, s);
    assert |multiset(r)| == |multiset(s)|;
    MirroredSorted(r);
    MapPermutation(Negate, r, s);
    ReversedValues(r);
    SortIsCanonical(RealLeq, Map(Negate, s), Reversed(r));
    MirroredMiddle(r);
  }

  lemma MirroredSorted(r: seq<real>)
    requires Sorted(RealLeq, r)
    ensures Sorted(RealLeq, Reversed(r))
  {
    forall i, j | 0 <= i < j < |r| ensures Reversed(r)[i] <= Reversed(r)[j] {
      assert RealLeq(r[|r| - 1 - j], r[|r| - 1 - i]);
    }
  }

  lemma {:induction false} ReversedValues(r: seq<real>)
    ensures multiset(Reversed(r)) == multiset(Map(Negate, r))
  {
    if r != [] {
      var init, last := r[..|r| - 1], -r[|r| - 1];
      ReversedValues(init);
      assert Reversed(r) == [last] + Reversed(init);
      assert Map(Negate, r) == Map(Negate, init) + [last];
    }
  }

  lemma MirroredMiddle(r: seq<real>)
    requires r != []
    ensures Middle(Reversed(r)) == -Middle(r)
  {
  }
}
