/** Sorting and "first k" selection with respect to a total order.
    std::sort, ORDER BY and LIMIT all reduce to these functions. */
module Ordering {

  ghost predicate TotalOrder<T(!new)>(leq: (T, T) -> bool) {
    && (forall x, y :: leq(x, y) || leq(y, x))
    && (forall x, y :: leq(x, y) && leq(y, x) ==> x == y)
    && (forall x, y, z :: leq(x, y) && leq(y, z) ==> leq(x, z))
  }

  predicate Sorted<T>(leq: (T, T) -> bool, s: seq<T>) {
    forall i, j :: 0 <= i < j < |s| ==> leq(s[i], s[j])
  }

  function Insert<T>(leq: (T, T) -> bool, x: T, s: seq<T>): seq<T> {
    if s == [] then [x]
    else if leq(x, s[0]) then [x] + s
    else [s[0]] + Insert(leq, x, s[1..])
  }

  function Sort<T>(leq: (T, T) -> bool, s: seq<T>): seq<T> {
    if s == [] then [] else Insert(leq, s[|s| - 1], Sort(leq, s[..|s| - 1]))
  }

  function Take<T>(k: nat, s: seq<T>): seq<T> {
    if |s| <= k then s else s[..k]
  }

  /** The k least elements of `s`, in order. */
  function TopK<T>(leq: (T, T) -> bool, k: nat, s: seq<T>): seq<T> {
    Take(k, Sort(leq, s))
  }

  function Map<T, U>(f: T -> U, s: seq<T>): (r: seq<U>)
    ensures |r| == |s| && forall i :: 0 <= i < |s| ==> r[i] == f(s[i])
  {
    seq(|s|, i requires 0 <= i < |s| => f(s[i]))
  }

  // ---------------------------------------------------------------- sorting

  lemma {:induction false} InsertSorts<T(!new)>(leq: (T, T) -> bool, x: T, s: seq<T>)
    requires TotalOrder(leq) && Sorted(leq, s)
    ensures Sorted(leq, Insert(leq, x, s))
    ensures multiset(Insert(leq, x, s)) == multiset(s) + multiset{x}
    ensures |Insert(leq, x, s)| == |s| + 1
  {
    if s == [] {
    } else if leq(x, s[0]) {
      assert leq(x, x);
      forall i | 0 <= i < |s| ensures leq(x, s[i]) {
        assert i == 0 || leq(s[0], s[i]);
      }
      SortedCons(leq, x, s);
      assert multiset([x] + s) == multiset{x} + multiset(s);
    } else {
      var rest := Insert(leq, x, s[1..]);
      TailSorted(leq, s);
      InsertSorts(leq, x, s[1..]);
      LeastStays(leq, s, x, rest);
      SortedCons(leq, s[0], rest);
    }
  }

  lemma LeastStays<T>(leq: (T, T) -> bool, s: seq<T>, x: T, rest: seq<T>)
    requires Sorted(leq, s) && s != [] && leq(s[0], x)
    requires multiset(rest) == multiset(s[1..]) + multiset{x}
    ensures forall i :: 0 <= i < |rest| ==> leq(s[0], rest[i])
  {
    forall i | 0 <= i < |rest| ensures leq(s[0], rest[i]) {
      assert rest[i] in multiset(rest);
      assert rest[i] == x || rest[i] in s[1..];
    }
  }

  lemma SortedCons<T>(leq: (T, T) -> bool, x: T, s: seq<T>)
    requires Sorted(leq, s) && forall i :: 0 <= i < |s| ==> leq(x, s[i])
    ensures Sorted(leq, [x] + s)
  {
    forall i, j | 0 <= i < j < |s| + 1 ensures leq(([x] + s)[i], ([x] + s)[j]) {
      if i > 0 {
        assert leq(s[i - 1], s[j - 1]);
      }
    }
  }

  lemma {:induction false} SortSorts<T(!new)>(leq: (T, T) -> bool, s: seq<T>)
    requires TotalOrder(leq)
    ensures Sorted(leq, Sort(leq, s))
    ensures multiset(Sort(leq, s)) == multiset(s)
    ensures |Sort(leq, s)| == |s|
  {
    if s != [] {
      var init, last := s[..|s| - 1], s[|s| - 1];
      SortSorts(leq, init);
      InsertSorts(leq, last, Sort(leq, init));
      assert s == init + [last];
    }
  }

  lemma LeastIsFirst<T(!new)>(leq: (T, T) -> bool, a: seq<T>, x: T)
    requires TotalOrder(leq) && Sorted(leq, a) && x in a
    ensures leq(a[0], x)
  {
    var i :| 0 <= i < |a| && a[i] == x;
    assert leq(x, x);
  }

  lemma SameFirst<T(!new)>(leq: (T, T) -> bool, a: seq<T>, b: seq<T>)
    requires TotalOrder(leq) && Sorted(leq, a) && Sorted(leq, b)
    requires multiset(a) == multiset(b) && a != [] && b != []
    ensures a[0] == b[0]
  {
    assert a[0] in multiset(b) && b[0] in multiset(a);
    LeastIsFirst(leq, a, b[0]);
    LeastIsFirst(leq, b, a[0]);
  }

  lemma {:induction false} SortedUnique<T(!new)>(leq: (T, T) -> bool, a: seq<T>, b: seq<T>)
    requires TotalOrder(leq) && Sorted(leq, a) && Sorted(leq, b)
    requires multiset(a) == multiset(b)
    ensures a == b
  {
    hide Sorted, TotalOrder;
    SameLength(a, b);
    if a != [] {
      SameFirst(leq, a, b);
      TailSorted(leq, a);
      TailSorted(leq, b);
      SortedUnique(leq, a[1..], b[1..]);
      SameParts(a, b);
    }
  }

  lemma SameParts<T>(a: seq<T>, b: seq<T>)
    requires a != [] && b != [] && a[0] == b[0] && a[1..] == b[1..]
    ensures a == b
  {
    assert a == [a[0]] + a[1..] && b == [b[0]] + b[1..];
  }

  lemma SameLength<T>(a: seq<T>, b: seq<T>)
    requires multiset(a) == multiset(b)
    ensures |a| == |b|
  {
    assert |a| == |multiset(a)| == |multiset(b)| == |b|;
  }

  lemma TailSorted<T>(leq: (T, T) -> bool, s: seq<T>)
    requires Sorted(leq, s) && s != []
    ensures Sorted(leq, s[1..]) && multiset(s[1..]) == multiset(s) - multiset{s[0]}
  {
    assert s == [s[0]] + s[1..];
  }

  /** Any sorted rearrangement of `s` is the one Sort computes. */
  lemma SortIsCanonical<T(!new)>(leq: (T, T) -> bool, s: seq<T>, r: seq<T>)
    requires TotalOrder(leq) && Sorted(leq, r) && multiset(r) == multiset(s)
    ensures r == Sort(leq, s)
  {
    SortSorts(leq, s);
    SortedUnique(leq, r, Sort(leq, s));
  }

  lemma SortPermutation<T(!new)>(leq: (T, T) -> bool, s: seq<T>, t: seq<T>)
    requires TotalOrder(leq) && multiset(s) == multiset(t)
    ensures Sort(leq, s) == Sort(leq, t)
  {
    SortSorts(leq, s);
    SortIsCanonical(leq, t, Sort(leq, s));
  }

  // ---------------------------------------------------------------- first k

  lemma {:induction false} InsertTake<T(!new)>(leq: (T, T) -> bool, k: nat, x: T, s: seq<T>)
    ensures Take(k, Insert(leq, x, s)) == Take(k, Insert(leq, x, Take(k, s)))
  {
    if k == 0 {
      assert Take(0, Insert(leq, x, s)) == [] == Take(0, Insert(leq, x, Take(0, s)));
    } else if s != [] && |s| > k {
      assert Take(k, s)[0] == s[0];
      assert Take(k, s)[1..] == Take(k - 1, s[1..]);
      if leq(x, s[0]) {
        assert Take(k, [x] + s) == [x] + Take(k - 1, s);
        assert Take(k, [x] + Take(k, s)) == [x] + Take(k - 1, s);
      } else {
        InsertTake(leq, k - 1, x, s[1..]);
        assert Take(k, [s[0]] + Insert(leq, x, s[1..])) == [s[0]] + Take(k - 1, Insert(leq, x, s[1..]));
        assert Take(k, [s[0]] + Insert(leq, x, Take(k - 1, s[1..])))
            == [s[0]] + Take(k - 1, Insert(leq, x, Take(k - 1, s[1..])));
      }
    }
  }

  lemma SortAppend<T>(leq: (T, T) -> bool, s: seq<T>, x: T)
    ensures Sort(leq, s + [x]) == Insert(leq, x, Sort(leq, s))
  {
    assert (s + [x])[..|s|] == s;
  }

  /** Only the k least elements matter for every later selection. */
  lemma TopKAppend<T(!new)>(leq: (T, T) -> bool, k: nat, s: seq<T>, t: seq<T>, x: T)
    requires TopK(leq, k, s) == TopK(leq, k, t)
    ensures TopK(leq, k, s + [x]) == TopK(leq, k, t + [x])
  {
    SortAppend(leq, s, x);
    SortAppend(leq, t, x);
    InsertTake(leq, k, x, Sort(leq, s));
    InsertTake(leq, k, x, Sort(leq, t));
  }

  lemma {:induction false} InsertBehind<T(!new)>(leq: (T, T) -> bool, k: nat, x: T, s: seq<T>)
    requires TotalOrder(leq) && Sorted(leq, s)
    requires 0 < k <= |s| && leq(s[k - 1], x)
    ensures Take(k, Insert(leq, x, s)) == Take(k, s)
  {
    if leq(x, s[0]) {
      forall i | 0 <= i < k ensures s[i] == x {
        assert leq(s[0], s[i]) || i == 0;
        assert leq(s[i], s[k - 1]) || i == k - 1;
      }
      assert forall i :: 0 <= i < k ==> ([x] + s)[i] == s[i];
    } else if k > 1 {
      InsertBehind(leq, k - 1, x, s[1..]);
      assert Take(k, [s[0]] + Insert(leq, x, s[1..])) == [s[0]] + Take(k - 1, Insert(leq, x, s[1..]));
      assert Take(k, s) == [s[0]] + Take(k - 1, s[1..]);
    }
  }

  /** A value that is less than the k-th changes the first k. */
  lemma {:induction false} InsertBefore<T(!new)>(leq: (T, T) -> bool, k: nat, x: T, s: seq<T>)
    requires TotalOrder(leq) && Sorted(leq, s)
    requires 0 < k <= |s| && !leq(s[k - 1], x)
    ensures Take(k, Insert(leq, x, s)) != Take(k, s)
  {
    hide Take, Sorted;
    if leq(x, s[0]) {
      assert leq(x, x);
      if Take(k, [x] + s) == Take(k, s) {
        AllFirst(x, s, k);
      }
    } else {
      assert leq(s[0], x) && k > 1;
      var r := Insert(leq, x, s[1..]);
      TailSorted(leq, s);
      InsertBefore(leq, k - 1, x, s[1..]);
      TakeTail(k, [s[0]] + r);
      TakeTail(k, s);
      assert ([s[0]] + r)[1..] == r;
    }
  }

  lemma TakeTail<T>(k: nat, s: seq<T>)
    requires k > 0 && s != []
    ensures Take(k, s) != [] && Take(k, s)[1..] == Take(k - 1, s[1..])
  {
  }

  lemma {:induction false} InsertLength<T>(leq: (T, T) -> bool, x: T, s: seq<T>)
    ensures |Insert(leq, x, s)| == |s| + 1
  {
    if s != [] && !leq(x, s[0]) {
      InsertLength(leq, x, s[1..]);
    }
  }

  lemma {:induction false} AllFirst<T>(x: T, s: seq<T>, k: nat)
    requires 0 < k <= |s| && Take(k, [x] + s) == Take(k, s)
    ensures s[k - 1] == x
  {
    assert Take(k, [x] + s)[k - 1] == Take(k, s)[k - 1] == s[k - 1];
    if k > 1 {
      assert Take(k - 1, [x] + s) == Take(k, [x] + s)[..k - 1] && Take(k - 1, s) == Take(k, s)[..k - 1];
      AllFirst(x, s, k - 1);
    }
  }

  /** One more value leaves the first k alone if and only if k values do not exceed it. */
  lemma TopKIgnoresIff<T(!new)>(leq: (T, T) -> bool, k: nat, s: seq<T>, x: T)
    requires TotalOrder(leq) && k > 0
    ensures |Sort(leq, s)| == |s|
    ensures TopK(leq, k, s + [x]) == TopK(leq, k, s) <==> k <= |s| && leq(Sort(leq, s)[k - 1], x)
  {
    SortSorts(leq, s);
    SortAppend(leq, s, x);
    var r := Sort(leq, s);
    InsertLength(leq, x, r);
    if k <= |s| {
      if leq(r[k - 1], x) {
        InsertBehind(leq, k, x, r);
      } else {
        InsertBefore(leq, k, x, r);
      }
    }
  }

  /** If some sorted list of at least k recorded elements ends at or below `x`,
      then dropping `x` changes no first-k answer. */
  lemma TopKIgnores<T(!new)>(leq: (T, T) -> bool, k: nat, s: seq<T>, list: seq<T>, x: T)
    requires TotalOrder(leq) && 0 < k <= |list|
    requires Sorted(leq, list) && multiset(list) <= multiset(s)
    requires leq(list[|list| - 1], x)
    ensures TopK(leq, k, s + [x]) == TopK(leq, k, s)
  {
    SortSorts(leq, s);
    var r := Sort(leq, s);
    var bound := list[|list| - 1];
    SubMultisetSize(multiset(list), multiset(s));
    if !leq(r[k - 1], bound) {
      forall i | k - 1 <= i < |r| ensures !leq(r[i], bound) {
        assert i == k - 1 || leq(r[k - 1], r[i]);
      }
      forall i | 0 <= i < |list| ensures leq(list[i], bound) {
        assert leq(bound, bound);
      }
      CountBelow(leq, r, list, k - 1, bound);
    }
    SortAppend(leq, s, x);
    InsertBehind(leq, k, x, r);
  }

  /** A list drawn from `r` whose elements are all at or below `bound` fits into the
      part of `r` that is not above it. */
  lemma CountBelow<T(!new)>(leq: (T, T) -> bool, r: seq<T>, list: seq<T>, m: nat, bound: T)
    requires m <= |r| && multiset(list) <= multiset(r)
    requires forall i :: m <= i < |r| ==> !leq(r[i], bound)
    requires forall i :: 0 <= i < |list| ==> leq(list[i], bound)
    ensures |list| <= m
  {
    assert r == r[..m] + r[m..];
    forall e | e in multiset(list) ensures multiset(list)[e] <= multiset(r[..m])[e] {
      assert e !in r[m..];
      assert multiset(r)[e] == multiset(r[..m])[e] + multiset(r[m..])[e];
    }
    SubMultisetSize(multiset(list), multiset(r[..m]));
  }

  lemma SubMultisetSize<T>(a: multiset<T>, b: multiset<T>)
    requires a <= b
    ensures |a| <= |b|
  {
    assert b == a + (b - a);
  }

  /** Sorting commutes with an order-preserving projection. */
  lemma SortMap<T(!new), U(!new)>(leq: (T, T) -> bool, leq': (U, U) -> bool, f: T -> U, s: seq<T>)
    requires TotalOrder(leq) && TotalOrder(leq')
    requires forall x, y :: leq(x, y) ==> leq'(f(x), f(y))
    ensures Map(f, Sort(leq, s)) == Sort(leq', Map(f, s))
  {
    SortSorts(leq, s);
    MapPermutation(f, Sort(leq, s), s);
    SortIsCanonical(leq', Map(f, s), Map(f, Sort(leq, s)));
  }

  lemma TopKMap<T(!new), U(!new)>(leq: (T, T) -> bool, leq': (U, U) -> bool, f: T -> U, k: nat, s: seq<T>)
    requires TotalOrder(leq) && TotalOrder(leq')
    requires forall x, y :: leq(x, y) ==> leq'(f(x), f(y))
    ensures Map(f, TopK(leq, k, s)) == TopK(leq', k, Map(f, s))
  {
    SortMap(leq, leq', f, s);
    assert Map(f, Take(k, Sort(leq, s))) == Take(k, Map(f, Sort(leq, s)));
  }

  lemma TakeIsPart<T>(leq: (T, T) -> bool, k: nat, s: seq<T>)
    requires Sorted(leq, s)
    ensures multiset(Take(k, s)) <= multiset(s) && Sorted(leq, Take(k, s))
    ensures |Take(k, s)| == if |s| <= k then |s| else k
  {
    assert s == Take(k, s) + s[|Take(k, s)|..];
  }

  lemma TopKIsPart<T(!new)>(leq: (T, T) -> bool, k: nat, s: seq<T>)
    requires TotalOrder(leq)
    ensures multiset(TopK(leq, k, s)) <= multiset(s)
    ensures |TopK(leq, k, s)| == if |s| <= k then |s| else k
    ensures Sorted(leq, TopK(leq, k, s))
  {
    SortSorts(leq, s);
    TakeIsPart(leq, k, Sort(leq, s));
  }

  lemma WindowIsPart<T(!new)>(leq: (T, T) -> bool, skip: nat, n: nat, s: seq<T>)
    requires TotalOrder(leq)
    ensures multiset(Window(leq, skip, n, s)) <= multiset(s)
  {
    TopKIsPart(leq, skip + n, s);
    hide TopK;
    var first := TopK(leq, skip + n, s);
    if |first| > skip {
      assert first == first[..skip] + first[skip..];
    }
  }

  /** Nothing that is left out comes before one of the first k. */
  lemma TopKLeast<T(!new)>(leq: (T, T) -> bool, k: nat, s: seq<T>) returns (rest: seq<T>)
    requires TotalOrder(leq)
    ensures multiset(TopK(leq, k, s) + rest) == multiset(s)
    ensures forall x, y :: x in TopK(leq, k, s) && y in rest ==> leq(x, y)
  {
    SortSorts(leq, s);
    var r, first := Sort(leq, s), TopK(leq, k, s);
    rest := r[|first|..];
    assert first + rest == r;
    forall x, y | x in first && y in rest ensures leq(x, y) {
      var i, j :| 0 <= i < |first| && first[i] == x && 0 <= j < |rest| && rest[j] == y;
      assert r[i] == x && r[|first| + j] == y;
    }
  }

  lemma TopKTwice<T(!new)>(leq: (T, T) -> bool, k: nat, s: seq<T>)
    requires TotalOrder(leq)
    ensures TopK(leq, k, TopK(leq, k, s)) == TopK(leq, k, s)
  {
    TopKIsPart(leq, k, s);
    SortIsCanonical(leq, TopK(leq, k, s), TopK(leq, k, s));
  }

  lemma {:induction false} TopKConcat<T(!new)>(leq: (T, T) -> bool, k: nat, s: seq<T>, t: seq<T>, more: seq<T>)
    requires TopK(leq, k, s) == TopK(leq, k, t)
    ensures TopK(leq, k, s + more) == TopK(leq, k, t + more)
  {
    if more == [] {
      assert s + more == s && t + more == t;
    } else {
      var init, x := more[..|more| - 1], more[|more| - 1];
      TopKConcat(leq, k, s, t, init);
      TopKAppend(leq, k, s + init, t + init, x);
      assert s + more == s + init + [x] && t + more == t + init + [x];
    }
  }

  /** Two lists with the same first k in their parts have the same first k. */
  lemma TopKBoth<T(!new)>(leq: (T, T) -> bool, k: nat, a: seq<T>, a': seq<T>, b: seq<T>, b': seq<T>)
    requires TotalOrder(leq)
    requires TopK(leq, k, a) == TopK(leq, k, a') && TopK(leq, k, b) == TopK(leq, k, b')
    ensures TopK(leq, k, a + b) == TopK(leq, k, a' + b')
  {
    TopKConcat(leq, k, a, a', b);
    TopKConcat(leq, k, b, b', a');
    SortPermutation(leq, a' + b, b + a');
    SortPermutation(leq, a' + b', b' + a');
  }

  /** Values that the k-th least does not exceed change nothing, however many they are. */
  lemma {:induction false} TopKIgnoresBehind<T(!new)>(leq: (T, T) -> bool, k: nat, s: seq<T>, more: seq<T>)
    requires TotalOrder(leq) && 0 < k <= |s| && |TopK(leq, k, s)| == k
    requires forall y :: y in more ==> leq(TopK(leq, k, s)[k - 1], y)
    ensures TopK(leq, k, s + more) == TopK(leq, k, s)
  {
    if more == [] {
      assert s + more == s;
    } else {
      var init, x := more[..|more| - 1], more[|more| - 1];
      assert more == init + [x] && s + more == s + init + [x] && x in more;
      assert forall y :: y in init ==> y in more;
      TopKIgnoresBehind(leq, k, s, init);
      TopKIgnoresIff(leq, k, s + init, x);
      assert TopK(leq, k, s + init)[k - 1] == Sort(leq, s + init)[k - 1];
    }
  }

  /** Values that k others do not exceed change nothing, however many they are. */
  lemma TopKIgnoresAll<T(!new)>(leq: (T, T) -> bool, k: nat, s: seq<T>, more: seq<T>)
    requires TotalOrder(leq) && k <= |s|
    requires forall x, y :: x in s && y in more ==> leq(x, y)
    ensures TopK(leq, k, s + more) == TopK(leq, k, s)
  {
    if k > 0 {
      TopKIsPart(leq, k, s);
      var first := TopK(leq, k, s);
      assert first[k - 1] in multiset(first) && first[k - 1] in s;
      TopKIgnoresBehind(leq, k, s, more);
    }
  }

  /** The next n elements, in order, behind the `skip` least. */
  function Window<T>(leq: (T, T) -> bool, skip: nat, n: nat, s: seq<T>): seq<T> {
    var first := TopK(leq, skip + n, s);
    if |first| <= skip then [] else first[skip..]
  }

  /** A page continues the elements before it. */
  lemma WindowContinues<T(!new)>(leq: (T, T) -> bool, skip: nat, n: nat, s: seq<T>)
    ensures TopK(leq, skip, s) + Window(leq, skip, n, s) == TopK(leq, skip + n, s)
  {
    TopKPrefix(leq, skip, skip + n, s);
    hide Sort;
  }

  /** The first k decide every page within them. */
  lemma WindowWithin<T>(leq: (T, T) -> bool, skip: nat, n: nat, k: nat, s: seq<T>, t: seq<T>)
    requires TopK(leq, k, s) == TopK(leq, k, t) && skip + n <= k
    ensures Window(leq, skip, n, s) == Window(leq, skip, n, t)
  {
    TopKPrefix(leq, skip + n, k, s);
    TopKPrefix(leq, skip + n, k, t);
  }

  lemma FirstWindow<T>(leq: (T, T) -> bool, k: nat, s: seq<T>)
    ensures Window(leq, 0, k, s) == TopK(leq, k, s)
  {
  }

  /** The first k decide every shorter answer. */
  lemma TopKPrefix<T>(leq: (T, T) -> bool, m: nat, k: nat, s: seq<T>)
    requires m <= k
    ensures Take(m, TopK(leq, k, s)) == TopK(leq, m, s)
  {
  }

  lemma {:induction false} MapPermutation<T, U>(f: T -> U, s: seq<T>, t: seq<T>)
    requires multiset(s) == multiset(t)
    ensures multiset(Map(f, s)) == multiset(Map(f, t))
  {
    if s == [] {
      assert |multiset(t)| == 0;
    } else {
      assert s[0] in multiset(t);
      var i :| 0 <= i < |t| && t[i] == s[0];
      MapRemoveAt(f, s, 0);
      MapRemoveAt(f, t, i);
      MapPermutation(f, RemoveAt(s, 0), RemoveAt(t, i));
    }
  }

  lemma {:induction false} MapPart<T, U>(f: T -> U, s: seq<T>, t: seq<T>)
    requires multiset(s) <= multiset(t)
    ensures multiset(Map(f, s)) <= multiset(Map(f, t))
  {
    if s != [] {
      assert s[0] in multiset(t);
      var i :| 0 <= i < |t| && t[i] == s[0];
      MapRemoveAt(f, s, 0);
      MapRemoveAt(f, t, i);
      MapPart(f, RemoveAt(s, 0), RemoveAt(t, i));
    }
  }

  function RemoveAt<T>(s: seq<T>, i: nat): (r: seq<T>)
    requires i < |s|
    ensures |r| == |s| - 1 && multiset(r) == multiset(s) - multiset{s[i]}
  {
    assert s == s[..i] + [s[i]] + s[i + 1..];
    s[..i] + s[i + 1..]
  }

  lemma MapRemoveAt<T, U>(f: T -> U, s: seq<T>, i: nat)
    requires i < |s|
    ensures multiset(Map(f, s)) == multiset(Map(f, RemoveAt(s, i))) + multiset{f(s[i])}
  {
    var m := Map(f, s);
    assert RemoveAt(m, i) == Map(f, RemoveAt(s, i));
    assert m[i] in multiset(m);
  }

  // ------------------------------------------------------------- distinctness

  ghost predicate Distinct<T>(s: seq<T>) {
    forall i, j :: 0 <= i < j < |s| ==> s[i] != s[j]
  }

  lemma TwiceInMultiset<T>(s: seq<T>, i: nat, j: nat)
    requires i < j < |s| && s[i] == s[j]
    ensures multiset(s)[s[i]] >= 2
  {
    assert s == s[..i] + [s[i]] + s[i + 1..j] + [s[j]] + s[j + 1..];
  }

  lemma {:induction false} OnceInMultiset<T>(s: seq<T>, x: T)
    requires Distinct(s)
    ensures multiset(s)[x] <= 1
  {
    if s != [] {
      OnceInMultiset(s[1..], x);
      assert s == [s[0]] + s[1..];
    }
  }
}
