/** The join of neighbour entries with the file table: a track with several files is found once
    for each of them. */
module FileJoin {
  import opened Ordering
  import opened Distances

  /** One element for each file: the track it holds. */
  type Files = multiset<int>

  function Repeat<T>(n: nat, x: T): (r: seq<T>)
    ensures |r| == n && forall i :: 0 <= i < n ==> r[i] == x
  {
    seq(n, _ => x)
  }

  /** Every entry once for each file of its track. */
  function JoinFiles(files: Files, ns: seq<Neighbour>): seq<Neighbour> {
    if ns == [] then []
    else
      var n := ns[|ns| - 1];
      JoinFiles(files, ns[..|ns| - 1]) + Repeat(files[n.track], n)
  }

  /** The distances in the join. */
  function Joined(files: Files, ns: seq<Neighbour>): seq<real> {
    Map(NeighbourDistance, JoinFiles(files, ns))
  }

  function PrintNeighbour(n: Neighbour): Neighbour {
    n.(d := SixDecimals(n.d))
  }

  /** Every entry is found at least once. */
  ghost predicate AllFound(files: Files, ns: seq<Neighbour>) {
    forall n :: n in ns ==> n.track in files
  }

  /** With one file for each track the join is the list. */
  lemma {:induction false} OneFileEach(files: Files, ns: seq<Neighbour>)
    requires forall n :: n in ns ==> files[n.track] == 1
    ensures JoinFiles(files, ns) == ns
  {
    if ns != [] {
      var init, n := ns[..|ns| - 1], ns[|ns| - 1];
      assert ns == init + [n] && n in ns;
      OneFileEach(files, init);
      assert Repeat(1, n) == [n];
    }
  }

  lemma JoinAppend(files: Files, ns: seq<Neighbour>, n: Neighbour)
    ensures Joined(files, ns + [n]) == Joined(files, ns) + Repeat(files[n.track], n.d)
  {
    assert (ns + [n])[..|ns|] == ns;
  }

  lemma {:induction false} JoinConcat(files: Files, ns: seq<Neighbour>, more: seq<Neighbour>)
    ensures Joined(files, ns + more) == Joined(files, ns) + Joined(files, more)
  {
    if more == [] {
      assert ns + more == ns;
    } else {
      var init, n := more[..|more| - 1], more[|more| - 1];
      JoinConcat(files, ns, init);
      JoinAppend(files, init, n);
      JoinAppend(files, ns + init, n);
      assert init + [n] == more && ns + more == ns + init + [n];
    }
  }

  lemma {:induction false} JoinCount(files: Files, ns: seq<Neighbour>, n: Neighbour)
    ensures multiset(JoinFiles(files, ns))[n] == multiset(ns)[n] * files[n.track]
  {
    if ns != [] {
      var init, last := ns[..|ns| - 1], ns[|ns| - 1];
      JoinCount(files, init, n);
      assert ns == init + [last];
      RepeatCount(files[last.track], last, n);
      if n == last {
        OneTimesMore(multiset(init)[n], files[n.track]);
      }
    }
  }

  lemma OneTimesMore(x: nat, n: nat)
    ensures (x + 1) * n == x * n + n
  {
  }

  lemma {:induction false} RepeatCount<T>(n: nat, x: T, y: T)
    ensures multiset(Repeat(n, x))[y] == if x == y then n else 0
  {
    if n > 0 {
      RepeatCount(n - 1, x, y);
      assert Repeat(n, x) == Repeat(n - 1, x) + [x];
    }
  }

  /** An entry is in the join if and only if it is in the list and its track has a file. */
  lemma JoinMember(files: Files, ns: seq<Neighbour>, n: Neighbour)
    ensures n in JoinFiles(files, ns) <==> n in ns && n.track in files
  {
    JoinCount(files, ns, n);
    assert n in ns <==> n in multiset(ns);
    assert n in JoinFiles(files, ns) <==> n in multiset(JoinFiles(files, ns));
    if n in ns && n.track in files {
      Positive(multiset(ns)[n], files[n.track]);
    }
  }

  lemma Positive(x: nat, y: nat)
    requires x > 0 && y > 0
    ensures x * y > 0
  {
  }

  lemma JoinValue(files: Files, ns: seq<Neighbour>, v: real) returns (n: Neighbour)
    requires v in Joined(files, ns)
    ensures n in ns && n.track in files && n.d == v
  {
    var i :| 0 <= i < |Joined(files, ns)| && Joined(files, ns)[i] == v;
    n := JoinFiles(files, ns)[i];
    JoinMember(files, ns, n);
  }

  lemma JoinedValue(files: Files, ns: seq<Neighbour>, n: Neighbour)
    requires n in ns && n.track in files
    ensures n.d in Joined(files, ns)
  {
    JoinMember(files, ns, n);
    var i :| 0 <= i < |JoinFiles(files, ns)| && JoinFiles(files, ns)[i] == n;
    assert Joined(files, ns)[i] == n.d;
  }

  lemma JoinPart(files: Files, ns: seq<Neighbour>, more: seq<Neighbour>)
    requires multiset(ns) <= multiset(more)
    ensures multiset(JoinFiles(files, ns)) <= multiset(JoinFiles(files, more))
  {
    forall n ensures multiset(JoinFiles(files, ns))[n] <= multiset(JoinFiles(files, more))[n] {
      JoinCount(files, ns, n);
      JoinCount(files, more, n);
      TimesMore(multiset(ns)[n], multiset(more)[n], files[n.track]);
    }
  }

  lemma TimesMore(x: nat, y: nat, n: nat)
    requires x <= y
    ensures x * n <= y * n
  {
  }

  lemma JoinPermutation(files: Files, s: seq<Neighbour>, t: seq<Neighbour>)
    requires multiset(s) == multiset(t)
    ensures multiset(Joined(files, s)) == multiset(Joined(files, t))
  {
    JoinPart(files, s, t);
    JoinPart(files, t, s);
    MapPermutation(NeighbourDistance, JoinFiles(files, s), JoinFiles(files, t));
  }

  /** Printing the values does not interfere with the join. */
  lemma {:induction false} JoinPrinted(files: Files, ns: seq<Neighbour>)
    ensures Joined(files, Map(PrintNeighbour, ns)) == Map(SixDecimals, Joined(files, ns))
  {
    hide SixDecimals;
    var ps := Map(PrintNeighbour, ns);
    if ns != [] {
      var init, n := ns[..|ns| - 1], ns[|ns| - 1];
      JoinPrinted(files, init);
      JoinAppend(files, init, n);
      JoinAppend(files, Map(PrintNeighbour, init), PrintNeighbour(n));
      assert ns == init + [n] && ps == Map(PrintNeighbour, init) + [PrintNeighbour(n)];
    }
  }

  lemma {:induction false} JoinLength(files: Files, ns: seq<Neighbour>)
    requires AllFound(files, ns)
    ensures |Joined(files, ns)| >= |ns|
  {
    if ns != [] {
      var init, n := ns[..|ns| - 1], ns[|ns| - 1];
      assert ns == init + [n] && n in ns;
      JoinLength(files, init);
    }
  }

  /** The first k of any list ordered by distance give the k nearest rows of the join, when each is
      found at all. */
  lemma FirstOfSortedJoin(files: Files, ns: seq<Neighbour>, sorted: seq<Neighbour>, k: nat)
    requires multiset(sorted) == multiset(ns) && NearestFirst(sorted) && AllFound(files, Take(k, sorted))
    ensures TopK(RealLeq, k, Joined(files, Take(k, sorted))) == TopK(RealLeq, k, Joined(files, ns))
  {
    RealOrder();
    var keep, drop := Take(k, sorted), sorted[|Take(k, sorted)|..];
    assert sorted == keep + drop;
    JoinConcat(files, keep, drop);
    JoinPermutation(files, sorted, ns);
    SortPermutation(RealLeq, Joined(files, sorted), Joined(files, ns));
    if drop == [] {
      assert Joined(files, drop) == [];
    } else {
      JoinLength(files, keep);
      forall x, y | x in Joined(files, keep) && y in Joined(files, drop) ensures x <= y {
        KeptBelowDropped(files, sorted, |keep|, x, y);
      }
      TopKIgnoresAll(RealLeq, k, Joined(files, keep), Joined(files, drop));
    }
  }

  lemma KeptBelowDropped(files: Files, sorted: seq<Neighbour>, m: nat, x: real, y: real)
    requires NearestFirst(sorted) && m <= |sorted|
    requires x in Joined(files, sorted[..m]) && y in Joined(files, sorted[m..])
    ensures x <= y
  {
    var n := JoinValue(files, sorted[..m], x);
    var p := JoinValue(files, sorted[m..], y);
    var i :| 0 <= i < m && sorted[..m][i] == n;
    var j :| 0 <= j < |sorted| - m && sorted[m..][j] == p;
    assert sorted[i].d <= sorted[m + j].d;
  }

  /** The k nearest entries do, with equal distances in the order of their tracks. */
  lemma FirstOfJoin(files: Files, ns: seq<Neighbour>, k: nat)
    requires AllFound(files, TopK(NeighbourLeq, k, ns))
    ensures TopK(RealLeq, k, Joined(files, TopK(NeighbourLeq, k, ns))) == TopK(RealLeq, k, Joined(files, ns))
  {
    NeighbourOrder();
    SortSorts(NeighbourLeq, ns);
    var sorted := Sort(NeighbourLeq, ns);
    forall i, j | 0 <= i < j < |sorted| ensures sorted[i].d <= sorted[j].d {
      assert NeighbourLeq(sorted[i], sorted[j]);
    }
    FirstOfSortedJoin(files, ns, sorted, k);
  }

  // ------------------------------------------------------------ another file of a track

  /** The distances of the entries that lead to track t. */
  function Hits(ns: seq<Neighbour>, t: int): seq<real> {
    if ns == [] then []
    else Hits(ns[..|ns| - 1], t) + if ns[|ns| - 1].track == t then [ns[|ns| - 1].d] else []
  }

  ghost predicate DistinctTracks(ns: seq<Neighbour>) {
    forall i, j :: 0 <= i < j < |ns| ==> ns[i].track != ns[j].track
  }

  lemma HitsAppend(ns: seq<Neighbour>, n: Neighbour, t: int)
    ensures Hits(ns + [n], t) == Hits(ns, t) + if n.track == t then [n.d] else []
  {
    assert (ns + [n])[..|ns|] == ns;
  }

  lemma {:induction false} JoinOneMore(files: Files, ns: seq<Neighbour>, t: int)
    ensures multiset(Joined(files + multiset{t}, ns)) == multiset(Joined(files, ns)) + multiset(Hits(ns, t))
  {
    if ns != [] {
      hide Joined, Hits;
      var init, n := ns[..|ns| - 1], ns[|ns| - 1];
      assert ns == init + [n];
      JoinOneMore(files, init, t);
      JoinAppend(files, init, n);
      JoinAppend(files + multiset{t}, init, n);
      HitsAppend(init, n, t);
      OneCopyMore(files, n, t);
    }
  }

  lemma OneCopyMore(files: Files, n: Neighbour, t: int)
    ensures Repeat((files + multiset{t})[n.track], n.d)
         == Repeat(files[n.track], n.d) + if n.track == t then [n.d] else []
  {
  }

  lemma {:induction false} NoHits(ns: seq<Neighbour>, t: int)
    requires forall n :: n in ns ==> n.track != t
    ensures Hits(ns, t) == []
  {
    if ns != [] {
      assert ns[|ns| - 1] in ns;
      NoHits(ns[..|ns| - 1], t);
    }
  }

  lemma {:induction false} OneHit(ns: seq<Neighbour>, e: Neighbour)
    requires DistinctTracks(ns) && e in ns
    ensures Hits(ns, e.track) == [e.d]
  {
    var init, n := ns[..|ns| - 1], ns[|ns| - 1];
    assert ns == init + [n];
    if n == e {
      NoHits(init, e.track);
    } else {
      OneHit(init, e);
    }
  }

  /** Another file of a track changes no agreement between stored and true entries, when every true
      entry has a file already. */
  lemma AnotherFile(files: Files, ns: seq<Neighbour>, all: seq<Neighbour>, t: int, k: nat)
    requires multiset(ns) <= multiset(all) && DistinctTracks(ns) && DistinctTracks(all) && AllFound(files, all)
    requires TopK(RealLeq, k, Joined(files, ns)) == TopK(RealLeq, k, Joined(files, all))
    ensures TopK(RealLeq, k, Joined(files + multiset{t}, ns)) == TopK(RealLeq, k, Joined(files + multiset{t}, all))
  {
    hide TopK, Joined, Hits;
    FirstAfterFile(files, ns, t, k);
    FirstAfterFile(files, all, t, k);
    PartMembers(ns, all);
    if e :| e in all && e.track == t {
      OneHit(all, e);
      if e in ns {
        OneHit(ns, e);
        TopKAppend(RealLeq, k, Joined(files, ns), Joined(files, all), e.d);
      } else {
        NotHit(ns, all, e);
        FewerHits(files, ns, all, e);
        CountedOut(k, Joined(files, ns), Joined(files, all), e.d);
      }
    } else {
      NoHits(ns, t);
      NoHits(all, t);
    }
  }

  lemma FirstAfterFile(files: Files, ns: seq<Neighbour>, t: int, k: nat)
    ensures TopK(RealLeq, k, Joined(files + multiset{t}, ns)) == TopK(RealLeq, k, Joined(files, ns) + Hits(ns, t))
    ensures Joined(files, ns) + [] == Joined(files, ns)
  {
    RealOrder();
    JoinOneMore(files, ns, t);
    SortPermutation(RealLeq, Joined(files + multiset{t}, ns), Joined(files, ns) + Hits(ns, t));
  }

  lemma NotHit(ns: seq<Neighbour>, all: seq<Neighbour>, e: Neighbour)
    requires DistinctTracks(all) && e in all && e !in ns && forall n :: n in ns ==> n in all
    ensures Hits(ns, e.track) == []
  {
    forall n | n in ns ensures n.track != e.track {
      if n.track == e.track {
        SameEntry(all, n, e);
      }
    }
    NoHits(ns, e.track);
  }

  lemma PartMembers(ns: seq<Neighbour>, all: seq<Neighbour>)
    requires multiset(ns) <= multiset(all)
    ensures forall n :: n in ns ==> n in all
  {
    forall n | n in ns ensures n in all {
      assert n in multiset(ns) && n in multiset(all);
    }
  }

  lemma SameEntry(all: seq<Neighbour>, n: Neighbour, e: Neighbour)
    requires DistinctTracks(all) && n in all && e in all && n.track == e.track
    ensures n == e
  {
    var i :| 0 <= i < |all| && all[i] == n;
    var j :| 0 <= j < |all| && all[j] == e;
  }

  lemma FewerHits(files: Files, ns: seq<Neighbour>, all: seq<Neighbour>, e: Neighbour)
    requires multiset(ns) <= multiset(all) && e in all && e !in ns && e.track in files
    ensures multiset(Joined(files, ns))[e.d] < multiset(Joined(files, all))[e.d]
  {
    assert e in multiset(all) && e !in multiset(ns);
    JoinPart(files, ns + [e], all);
    MapPart(NeighbourDistance, JoinFiles(files, ns + [e]), JoinFiles(files, all));
    JoinAppend(files, ns, e);
    RepeatCount(files[e.track], e.d, e.d);
  }

  /** A value that stands more often in s than in r, although both have the same first k, is not
      among them. */
  lemma CountedOut(k: nat, r: seq<real>, s: seq<real>, v: real)
    requires TopK(RealLeq, k, r) == TopK(RealLeq, k, s) && multiset(r)[v] < multiset(s)[v]
    ensures TopK(RealLeq, k, s + [v]) == TopK(RealLeq, k, s)
  {
    RealOrder();
    TopKIsPart(RealLeq, k, r);
    if k > 0 {
      TopKIgnoresIff(RealLeq, k, s, v);
      if |s| < k || Sort(RealLeq, s)[k - 1] > v {
        SmallOnesFirst(k, s, v);
      }
    }
  }

  lemma SmallOnesFirst(k: nat, s: seq<real>, v: real)
    requires k > 0 && |Sort(RealLeq, s)| == |s|
    requires |s| < k || Sort(RealLeq, s)[k - 1] > v
    ensures multiset(TopK(RealLeq, k, s))[v] == multiset(s)[v]
  {
    RealOrder();
    SortSorts(RealLeq, s);
    var r := Sort(RealLeq, s);
    if |s| >= k {
      assert r == r[..k] + r[k..];
      forall i | k <= i < |r| ensures r[i] != v {
        assert RealLeq(r[k - 1], r[i]);
      }
      assert v !in r[k..];
    }
  }

  /** Copies of a value leave the first k alone if and only if k values do not exceed it. */
  lemma CopiesIgnoredIff(k: nat, s: seq<real>, x: real, n: nat)
    requires k > 0 && n > 0
    ensures |Sort(RealLeq, s)| == |s|
    ensures TopK(RealLeq, k, s + Repeat(n, x)) == TopK(RealLeq, k, s) <==> k <= |s| && Sort(RealLeq, s)[k - 1] <= x
  {
    RealOrder();
    TopKIgnoresIff(RealLeq, k, s, x);
    hide TopK, Sort;
    if k <= |s| && Sort(RealLeq, s)[k - 1] <= x {
      CopiesIgnored(k, s, x, n);
    }
    if TopK(RealLeq, k, s + Repeat(n, x)) == TopK(RealLeq, k, s) {
      RepeatCount(n, x, x);
      LastOfSame(k, s, s + Repeat(n, x), x);
    }
  }

  lemma LastOfSame(k: nat, s: seq<real>, t: seq<real>, x: real)
    requires k > 0 && TopK(RealLeq, k, t) == TopK(RealLeq, k, s)
    requires multiset(s)[x] < multiset(t)[x]
    ensures |Sort(RealLeq, s)| == |s| && k <= |s| && Sort(RealLeq, s)[k - 1] <= x
  {
    RealOrder();
    CountedOut(k, s, t, x);
    TopKIgnoresIff(RealLeq, k, t, x);
    SortSorts(RealLeq, s);
    hide Sort;
    assert |TopK(RealLeq, k, s)| == k;
    assert Sort(RealLeq, s)[k - 1] == TopK(RealLeq, k, s)[k - 1] == Sort(RealLeq, t)[k - 1];
  }

  lemma {:induction false} CopiesIgnored(k: nat, s: seq<real>, x: real, n: nat)
    requires TopK(RealLeq, k, s + [x]) == TopK(RealLeq, k, s)
    ensures TopK(RealLeq, k, s + Repeat(n, x)) == TopK(RealLeq, k, s)
  {
    if n == 0 {
      assert s + Repeat(0, x) == s;
    } else {
      CopiesIgnored(k, s, x, n - 1);
      TopKAppend(RealLeq, k, s + Repeat(n - 1, x), s, x);
      assert s + Repeat(n, x) == s + Repeat(n - 1, x) + [x];
    }
  }

  /** Entries that are all found are part of the join. */
  lemma EntriesInJoin(files: Files, ns: seq<Neighbour>)
    requires AllFound(files, ns)
    ensures multiset(Map(NeighbourDistance, ns)) <= multiset(Joined(files, ns))
  {
    forall n ensures multiset(ns)[n] <= multiset(JoinFiles(files, ns))[n] {
      JoinCount(files, ns, n);
      if n in multiset(ns) {
        assert n in ns;
        TimesMore(1, files[n.track], multiset(ns)[n]);
      }
    }
    MapPart(NeighbourDistance, ns, JoinFiles(files, ns));
  }
}
