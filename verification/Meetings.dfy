/** Which tracks a run of distance jobs has brought together, and the values that a table of all
    their distances would hold. */
module Meetings {
  import opened Ordering
  import opened Distances
  import opened FileJoin
  import opened Store

  /** The distance function; a job evaluates it from the higher track id to the lower. */
  type Metric = (Kind, int, int) -> Distance

  function PairDistance(metric: Metric, kind: Kind, a: int, b: int): real {
    if a > b then metric(kind, a, b) else metric(kind, b, a)
  }

  function Stored(metric: Metric, kind: Kind, a: int, b: int): real {
    SixDecimals(PairDistance(metric, kind, a, b))
  }

  function StoredEntry(metric: Metric, kind: Kind, a: int, b: int): Neighbour {
    Neighbour(Stored(metric, kind, a, b), b, -1)
  }

  /** The entries of track a if every distance to the tracks bs were stored. */
  function StoredEntries(metric: Metric, kind: Kind, a: int, bs: seq<int>): (r: seq<Neighbour>)
    ensures |r| == |bs| && forall i :: 0 <= i < |bs| ==> r[i] == StoredEntry(metric, kind, a, bs[i])
  {
    seq(|bs|, i requires 0 <= i < |bs| => StoredEntry(metric, kind, a, bs[i]))
  }

  /** The distances that a query would then choose from. */
  function StoredAll(files: Files, metric: Metric, kind: Kind, a: int, bs: seq<int>): seq<real> {
    Joined(files, StoredEntries(metric, kind, a, bs))
  }

  lemma StoredAppend(files: Files, metric: Metric, kind: Kind, a: int, bs: seq<int>, b: int)
    ensures StoredAll(files, metric, kind, a, bs + [b])
         == StoredAll(files, metric, kind, a, bs) + Repeat(files[b], Stored(metric, kind, a, b))
  {
    JoinAppend(files, StoredEntries(metric, kind, a, bs), StoredEntry(metric, kind, a, b));
    assert StoredEntries(metric, kind, a, bs + [b])
         == StoredEntries(metric, kind, a, bs) + [StoredEntry(metric, kind, a, b)];
  }

  lemma StoredConcat(files: Files, metric: Metric, kind: Kind, a: int, bs: seq<int>, more: seq<int>)
    ensures StoredAll(files, metric, kind, a, bs + more)
         == StoredAll(files, metric, kind, a, bs) + StoredAll(files, metric, kind, a, more)
  {
    JoinConcat(files, StoredEntries(metric, kind, a, bs), StoredEntries(metric, kind, a, more));
    assert StoredEntries(metric, kind, a, bs + more)
        == StoredEntries(metric, kind, a, bs) + StoredEntries(metric, kind, a, more);
  }

  lemma StoredPermutation(files: Files, metric: Metric, kind: Kind, a: int, s: seq<int>, t: seq<int>)
    requires multiset(s) == multiset(t)
    ensures multiset(StoredAll(files, metric, kind, a, s)) == multiset(StoredAll(files, metric, kind, a, t))
  {
    var f := b => StoredEntry(metric, kind, a, b);
    MapPermutation(f, s, t);
    assert StoredEntries(metric, kind, a, s) == Map(f, s);
    assert StoredEntries(metric, kind, a, t) == Map(f, t);
    JoinPermutation(files, StoredEntries(metric, kind, a, s), StoredEntries(metric, kind, a, t));
  }

  // ------------------------------------------------------------------ the meetings

  /** No two tracks of a kind meet twice, and each meeting is noted from the higher id. */
  ghost predicate MeetingsOk(met: seq<Meeting>) {
    Distinct(met) && forall m :: m in met ==> m.b < m.a
  }

  /** The tracks that `a` has met, in the order of the meetings. */
  function MetBy(met: seq<Meeting>, kind: Kind, a: int): seq<int> {
    if met == [] then []
    else
      var m := met[|met| - 1];
      MetBy(met[..|met| - 1], kind, a)
      + if m.kind != kind then [] else if m.a == a then [m.b] else if m.b == a then [m.a] else []
  }

  function TrueValues(files: Files, metric: Metric, kind: Kind, met: seq<Meeting>, a: int): seq<real> {
    StoredAll(files, metric, kind, a, MetBy(met, kind, a))
  }

  lemma {:induction false} MetByMembers(met: seq<Meeting>, kind: Kind, a: int, b: int)
    requires MeetingsOk(met)
    ensures b in MetBy(met, kind, a) <==> Meeting(kind, a, b) in met || Meeting(kind, b, a) in met
  {
    if met != [] {
      var init, m := met[..|met| - 1], met[|met| - 1];
      assert met == init + [m] && m in met;
      MetByMembers(init, kind, a, b);
    }
  }

  lemma {:induction false} MetByDistinct(met: seq<Meeting>, kind: Kind, a: int)
    requires MeetingsOk(met)
    ensures Distinct(MetBy(met, kind, a)) && a !in MetBy(met, kind, a)
  {
    if met != [] {
      var init, m := met[..|met| - 1], met[|met| - 1];
      assert met == init + [m] && m in met && m !in init;
      MetByDistinct(init, kind, a);
      MetByMembers(init, kind, a, m.a);
      MetByMembers(init, kind, a, m.b);
      assert Meeting(kind, m.b, m.a) !in met;
    }
  }

  lemma {:induction false} MetByConcat(met: seq<Meeting>, more: seq<Meeting>, kind: Kind, a: int)
    ensures MetBy(met + more, kind, a) == MetBy(met, kind, a) + MetBy(more, kind, a)
  {
    if more == [] {
      assert met + more == met;
    } else {
      var init := more[..|more| - 1];
      assert (met + more)[..|met + more| - 1] == met + init;
      MetByConcat(met, init, kind, a);
    }
  }

  // ------------------------------------------------------------------ a new job

  /** The tracks below c, which the job of c compares it with. */
  function Below(ts: seq<int>, c: int): seq<int> {
    if ts == [] then []
    else Below(ts[..|ts| - 1], c) + if ts[|ts| - 1] < c then [ts[|ts| - 1]] else []
  }

  lemma {:induction false} BelowMembers(ts: seq<int>, c: int)
    ensures forall b :: b in Below(ts, c) <==> b in ts && b < c
    ensures Distinct(ts) ==> Distinct(Below(ts, c))
  {
    if ts != [] {
      var init, last := ts[..|ts| - 1], ts[|ts| - 1];
      BelowMembers(init, c);
      assert ts == init + [last];
      if Distinct(ts) {
        assert last !in init;
      }
    }
  }

  /** The meetings of one job. */
  function NewMeetings(kind: Kind, c: int, seen: seq<int>): (r: seq<Meeting>)
    ensures |r| == |seen| && forall i :: 0 <= i < |seen| ==> r[i] == Meeting(kind, c, seen[i])
  {
    seq(|seen|, i requires 0 <= i < |seen| => Meeting(kind, c, seen[i]))
  }

  /** No job of this track has met anybody yet; earlier jobs may have met the track. */
  ghost predicate Unmet(met: seq<Meeting>, kind: Kind, c: int) {
    forall m :: m in met ==> !(m.kind == kind && m.a == c)
  }

  lemma NeverMet(met: seq<Meeting>, kind: Kind, c: int, b: int)
    requires MeetingsOk(met) && Unmet(met, kind, c) && b < c
    ensures c !in MetBy(met, kind, b) && b !in MetBy(met, kind, c)
  {
    MetByMembers(met, kind, b, c);
    MetByMembers(met, kind, c, b);
  }

  lemma {:induction false} MetByNew(kind: Kind, c: int, seen: seq<int>, kd: Kind, a: int)
    requires Distinct(seen) && forall b :: b in seen ==> b < c
    ensures MetBy(NewMeetings(kind, c, seen), kd, a)
         == if kd != kind then [] else if a == c then seen else if a in seen then [c] else []
  {
    if seen != [] {
      var init, b := seen[..|seen| - 1], seen[|seen| - 1];
      assert seen == init + [b] && b in seen && b !in init;
      forall x | x in init ensures x < c {
        assert x in seen;
      }
      MetByNew(kind, c, init, kd, a);
      assert NewMeetings(kind, c, seen)[..|seen| - 1] == NewMeetings(kind, c, init);
    }
  }

  lemma MetByAfterJob(met: seq<Meeting>, kind: Kind, c: int, seen: seq<int>, kd: Kind, a: int)
    requires Distinct(seen) && forall b :: b in seen ==> b < c
    ensures MetBy(met + NewMeetings(kind, c, seen), kd, a)
         == MetBy(met, kd, a) + if kd != kind then [] else if a == c then seen else if a in seen then [c] else []
  {
    MetByConcat(met, NewMeetings(kind, c, seen), kd, a);
    MetByNew(kind, c, seen, kd, a);
  }

  /** A job adds each of its pairs once and repeats none. */
  lemma MeetingsAfterJob(met: seq<Meeting>, kind: Kind, c: int, seen: seq<int>)
    requires MeetingsOk(met) && Unmet(met, kind, c)
    requires Distinct(seen) && forall b :: b in seen ==> b < c
    ensures MeetingsOk(met + NewMeetings(kind, c, seen))
  {
    var added := NewMeetings(kind, c, seen);
    forall m | m in added ensures m.b < m.a && m !in met {
      var i :| 0 <= i < |added| && added[i] == m;
      assert seen[i] in seen;
    }
    forall i, j | 0 <= i < |met| && 0 <= j < |added| ensures met[i] != added[j] {
      assert met[i] in met && added[j] in added;
    }
  }

  lemma NewMeetingsMembers(kind: Kind, c: int, seen: seq<int>, m: Meeting)
    ensures m in NewMeetings(kind, c, seen) <==> m.kind == kind && m.a == c && m.b in seen
  {
    if m.kind == kind && m.a == c && m.b in seen {
      var i :| 0 <= i < |seen| && seen[i] == m.b;
      assert NewMeetings(kind, c, seen)[i] == m;
    }
  }

  lemma SameMembersPermutation(s: seq<int>, t: seq<int>)
    requires Distinct(s) && Distinct(t)
    requires forall x :: x in s <==> x in t
    ensures multiset(s) == multiset(t)
  {
    forall x ensures multiset(s)[x] == multiset(t)[x] {
      OnceInMultiset(s, x);
      OnceInMultiset(t, x);
      assert x in s <==> x in multiset(s);
      assert x in t <==> x in multiset(t);
    }
  }

  lemma DistinctPart<T>(s: seq<T>, t: seq<T>)
    requires Distinct(s) && forall x :: x in s ==> x in t
    ensures multiset(s) <= multiset(t)
  {
    forall x ensures multiset(s)[x] <= multiset(t)[x] {
      OnceInMultiset(s, x);
      assert x in s <==> x in multiset(s);
      assert x in t <==> x in multiset(t);
    }
  }
}
