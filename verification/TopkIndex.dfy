/** What the distance table promises about nearest neighbours, and why the steps of a
    distance job keep the promise although most reverse rows are never written. */
module TopkIndex {
  import opened Ordering
  import opened Distances
  import opened FileJoin
  import opened Store
  import opened Meetings

  // ------------------------------------------------------------ the promise

  /** Every track that has met another one has a file. */
  ghost predicate HaveFiles(files: Files, met: seq<Meeting>) {
    forall m :: m in met ==> m.a in files && m.b in files
  }

  /** Every row is a true distance, no ordered pair has two rows, and every first-k
      query answers as if all distances of the met pairs had been stored. */
  ghost predicate IndexOk(files: Files, rows: seq<Row>, metric: Metric, k: nat, met: seq<Meeting>) {
    && MeetingsOk(met) && HaveFiles(files, met)
    && RowsTrue(rows, metric, met)
    && UniqueRows(rows)
    && forall kind, a ::
         TopK(RealLeq, k, Values(files, rows, kind, a)) == TopK(RealLeq, k, TrueValues(files, metric, kind, met, a))
  }

  ghost predicate RowsTrue(rows: seq<Row>, metric: Metric, met: seq<Meeting>) {
    forall r :: r in rows ==> r.value == Stored(metric, r.kind, r.a, r.b) && r.b in MetBy(met, r.kind, r.a)
  }

  lemma TrueRows(files: Files, rows: seq<Row>, metric: Metric, k: nat, met: seq<Meeting>)
    requires IndexOk(files, rows, metric, k, met)
    ensures RowsTrue(rows, metric, met)
  {
  }

  /** The job (kind, c), the first of its track, may meet the tracks `seen`.  Their own jobs may be
      done, failed or still to come. */
  ghost predicate CanMeet(files: Files, met: seq<Meeting>, kind: Kind, c: int, seen: seq<int>) {
    && Unmet(met, kind, c) && c in files
    && Distinct(seen) && forall b :: b in seen ==> b < c && b in files
  }

  /** The same in the middle of the job (kind, c), when the reverse rows of the tracks
      `seen` have been decided. */
  ghost predicate MidJobOk(files: Files, rows: seq<Row>, metric: Metric, k: nat, met: seq<Meeting>,
                           kind: Kind, c: int, seen: seq<int>)
  {
    && MeetingsOk(met) && HaveFiles(files, met) && CanMeet(files, met, kind, c, seen)
    && (forall r :: r in rows ==> MidJobRow(r, metric, met, kind, c, seen))
    && UniqueRows(rows)
    && forall kd, a ::
         TopK(RealLeq, k, Values(files, rows, kd, a))
         == TopK(RealLeq, k, MidJobValues(files, metric, met, kind, c, seen, kd, a))
  }

  ghost predicate MidJobRow(r: Row, metric: Metric, met: seq<Meeting>, kind: Kind, c: int, seen: seq<int>) {
    && r.value == Stored(metric, r.kind, r.a, r.b)
    && (r.b in MetBy(met, r.kind, r.a) || (r.kind == kind && r.b == c && r.a in seen))
  }

  /** The tracks that `a` has met so far, the running job included. */
  function MidJobPartners(met: seq<Meeting>, kind: Kind, c: int, seen: seq<int>, kd: Kind, a: int): seq<int> {
    MetBy(met, kd, a) + if kd == kind && a in seen then [c] else []
  }

  function MidJobValues(files: Files, metric: Metric, met: seq<Meeting>, kind: Kind, c: int, seen: seq<int>,
                        kd: Kind, a: int): seq<real>
  {
    StoredAll(files, metric, kd, a, MidJobPartners(met, kind, c, seen, kd, a))
  }

  /** A cached list is sorted and is made of values that are recorded for its track. */
  predicate ListOk(list: seq<real>, recorded: seq<real>) {
    && Sorted(RealLeq, list)
    && multiset(Map(SixDecimals, list)) <= multiset(recorded)
  }

  lemma ListOkMore(list: seq<real>, recorded: seq<real>, more: seq<real>)
    requires ListOk(list, recorded)
    ensures ListOk(list, recorded + more)
  {
  }

  lemma MapSorted(list: seq<real>)
    requires Sorted(RealLeq, list)
    ensures Sorted(RealLeq, Map(SixDecimals, list))
  {
    forall i, j | 0 <= i < j < |list| ensures SixDecimals(list[i]) <= SixDecimals(list[j]) {
      assert RealLeq(list[i], list[j]);
      SixDecimalsMonotone(list[i], list[j]);
    }
  }

  // ------------------------------------------------------------ the job steps

  lemma StartOfJob(files: Files, rows: seq<Row>, metric: Metric, k: nat, met: seq<Meeting>, kind: Kind, c: int)
    requires IndexOk(files, rows, metric, k, met) && Unmet(met, kind, c) && c in files
    ensures MidJobOk(files, rows, metric, k, met, kind, c, [])
  {
    forall kd, a
      ensures TopK(RealLeq, k, Values(files, rows, kd, a))
           == TopK(RealLeq, k, MidJobValues(files, metric, met, kind, c, [], kd, a))
    {
      assert MidJobPartners(met, kind, c, [], kd, a) == MetBy(met, kd, a);
    }
  }

  /** Nothing is recorded yet about a track that the job has still to meet. */
  lemma NotRecordedYet(r: Row, metric: Metric, met: seq<Meeting>, kind: Kind, c: int, seen: seq<int>, b: int)
    requires MeetingsOk(met) && Unmet(met, kind, c) && b < c && b !in seen
    requires MidJobRow(r, metric, met, kind, c, seen) && r.kind == kind
    ensures !(r.a == b && r.b == c)
  {
    NeverMet(met, kind, c, b);
  }

  /** Nor has any row been written that starts at the job's track and leads to a lower one that the
      job meets. */
  lemma NoForwardRowYet(r: Row, metric: Metric, met: seq<Meeting>, kind: Kind, c: int, seen: seq<int>, b: int)
    requires MeetingsOk(met) && Unmet(met, kind, c) && b < c && forall x :: x in seen ==> x < c
    requires MidJobRow(r, metric, met, kind, c, seen) && r.kind == kind
    ensures !(r.a == c && r.b == b)
  {
    NeverMet(met, kind, c, b);
  }

  lemma ReverseRowRecorded(files: Files, rows: seq<Row>, metric: Metric, k: nat, met: seq<Meeting>,
                           kind: Kind, c: int, seen: seq<int>, b: int)
    requires MidJobOk(files, rows, metric, k, met, kind, c, seen)
    requires b !in seen && b < c && b in files
    ensures MidJobOk(files, rows + [Row(kind, b, c, Stored(metric, kind, b, c))], metric, k, met, kind, c, seen + [b])
  {
    var row := Row(kind, b, c, Stored(metric, kind, b, c));
    forall r | r in rows ensures MidJobRow(r, metric, met, kind, c, seen + [b]) {
      assert MidJobRow(r, metric, met, kind, c, seen);
    }
    forall i | 0 <= i < |rows| ensures !(rows[i].kind == kind && rows[i].a == b && rows[i].b == c) {
      if rows[i].kind == kind {
        assert rows[i] in rows;
        NotRecordedYet(rows[i], metric, met, kind, c, seen, b);
      }
    }
    forall kd, a
      ensures TopK(RealLeq, k, Values(files, rows + [row], kd, a))
           == TopK(RealLeq, k, MidJobValues(files, metric, met, kind, c, seen + [b], kd, a))
    {
      ValuesAppend(files, rows, row, kd, a);
      MidJobValuesStep(files, metric, met, kind, c, seen, b, kd, a);
      var before := MidJobValues(files, metric, met, kind, c, seen, kd, a);
      assert TopK(RealLeq, k, Values(files, rows, kd, a)) == TopK(RealLeq, k, before);
      if kd == kind && a == b {
        TopKConcat(RealLeq, k, Values(files, rows, kd, a), before, Repeat(files[c], row.value));
      } else {
        assert Values(files, rows + [row], kd, a) == Values(files, rows, kd, a);
      }
    }
  }

  lemma MidJobValuesStep(files: Files, metric: Metric, met: seq<Meeting>, kind: Kind, c: int, seen: seq<int>, b: int,
                         kd: Kind, a: int)
    requires b !in seen
    ensures MidJobValues(files, metric, met, kind, c, seen + [b], kd, a)
         == MidJobValues(files, metric, met, kind, c, seen, kd, a)
            + if kd == kind && a == b then Repeat(files[c], Stored(metric, kind, b, c)) else []
  {
    var ps := MidJobPartners(met, kind, c, seen, kd, a);
    var before := StoredAll(files, metric, kd, a, ps);
    assert before + [] == before && ps + [] == ps;
    if kd == kind && a == b {
      StoredAppend(files, metric, kd, a, ps, c);
    }
    assert MidJobPartners(met, kind, c, seen + [b], kd, a) == ps + if kd == kind && a == b then [c] else [];
  }

  /** A reverse row may be skipped when the cached list holds at least k values and its
      last one does not exceed the new distance. */
  lemma ReverseRowSkipped(files: Files, rows: seq<Row>, metric: Metric, k: nat, met: seq<Meeting>,
                          kind: Kind, c: int, seen: seq<int>, b: int, list: seq<real>)
    requires MidJobOk(files, rows, metric, k, met, kind, c, seen)
    requires b !in seen && b < c && b in files && 0 < k <= |list|
    requires ListOk(list, Values(files, rows, kind, b))
    requires list[|list| - 1] <= PairDistance(metric, kind, b, c)
    ensures MidJobOk(files, rows, metric, k, met, kind, c, seen + [b])
  {
    forall r | r in rows ensures MidJobRow(r, metric, met, kind, c, seen + [b]) {
      assert MidJobRow(r, metric, met, kind, c, seen);
    }
    forall kd, a
      ensures TopK(RealLeq, k, Values(files, rows, kd, a))
           == TopK(RealLeq, k, MidJobValues(files, metric, met, kind, c, seen + [b], kd, a))
    {
      MidJobValuesStep(files, metric, met, kind, c, seen, b, kd, a);
      var before := MidJobValues(files, metric, met, kind, c, seen, kd, a);
      assert TopK(RealLeq, k, Values(files, rows, kd, a)) == TopK(RealLeq, k, before);
      if kd == kind && a == b {
        TopKConcat(RealLeq, k, Values(files, rows, kd, a), before, Repeat(files[c], Stored(metric, kind, b, c)));
        DominatedValue(Values(files, rows, kd, a), k, list, PairDistance(metric, kind, b, c));
        CopiesIgnored(k, Values(files, rows, kd, a), Stored(metric, kind, b, c), files[c]);
      } else {
        assert MidJobValues(files, metric, met, kind, c, seen + [b], kd, a) == before;
      }
    }
  }

  lemma DominatedValue(recorded: seq<real>, k: nat, list: seq<real>, d: real)
    requires 0 < k <= |list| && ListOk(list, recorded) && list[|list| - 1] <= d
    ensures TopK(RealLeq, k, recorded + [SixDecimals(d)]) == TopK(RealLeq, k, recorded)
  {
    MapSorted(list);
    SixDecimalsMonotone(list[|list| - 1], d);
    RealOrder();
    TopKIgnores(RealLeq, k, recorded, Map(SixDecimals, list), SixDecimals(d));
  }

  // ---------------------------------------------------------- the forward rows

  function ForwardRow(kind: Kind, c: int, n: Neighbour): Row {
    Row(kind, c, n.track, n.d)
  }

  /** The forward rows of job (kind, c) for the given nearest entries. */
  function ForwardRows(kind: Kind, c: int, nearest: seq<Neighbour>): (r: seq<Row>)
    ensures |r| == |nearest| && forall i :: 0 <= i < |nearest| ==> r[i] == ForwardRow(kind, c, nearest[i])
  {
    seq(|nearest|, i requires 0 <= i < |nearest| => ForwardRow(kind, c, nearest[i]))
  }

  /** The distances from c to the tracks it meets, as the calculation loop collects them. */
  function Candidates(metric: Metric, kind: Kind, c: int, seen: seq<int>): (r: seq<Neighbour>)
    ensures |r| == |seen|
    ensures forall i :: 0 <= i < |seen| ==> r[i] == Neighbour(metric(kind, c, seen[i]), seen[i], -1)
  {
    seq(|seen|, i requires 0 <= i < |seen| => Neighbour(metric(kind, c, seen[i]), seen[i], -1))
  }

  lemma {:induction false} ValuesOfForwardRows(files: Files, kind: Kind, c: int, nearest: seq<Neighbour>, kd: Kind,
                                               a: int)
    ensures Values(files, Printed(ForwardRows(kind, c, nearest)), kd, a)
         == if kd == kind && a == c then Map(SixDecimals, Joined(files, nearest)) else []
  {
    if nearest == [] {
    } else {
      var init, last := nearest[..|nearest| - 1], nearest[|nearest| - 1];
      ValuesOfForwardRows(files, kind, c, init, kd, a);
      assert Printed(ForwardRows(kind, c, nearest))
          == Printed(ForwardRows(kind, c, init)) + [PrintRow(ForwardRow(kind, c, last))];
      ValuesAppend(files, Printed(ForwardRows(kind, c, init)), PrintRow(ForwardRow(kind, c, last)), kd, a);
      JoinAppend(files, init, last);
      assert nearest == init + [last];
    }
  }

  /** The stored forward rows give the same first k as all candidates would. */
  lemma ForwardValues(files: Files, metric: Metric, kind: Kind, c: int, seen: seq<int>, k: nat)
    requires forall b :: b in seen ==> b < c && b in files
    ensures TopK(RealLeq, k, Map(SixDecimals, Joined(files, TopK(NeighbourLeq, k, Candidates(metric, kind, c, seen)))))
         == TopK(RealLeq, k, StoredAll(files, metric, kind, c, seen))
  {
    var cs := Candidates(metric, kind, c, seen);
    var nearest := TopK(NeighbourLeq, k, cs);
    forall n | n in nearest ensures n.track in files {
      var i :| 0 <= i < |nearest| && nearest[i] == n;
      CandidateOfForwardRow(metric, kind, c, seen, k, i);
    }
    hide TopK, Joined, SixDecimals;
    FirstOfJoin(files, cs, k);
    StoredOfTopK(k, Joined(files, nearest));
    StoredOfTopK(k, Joined(files, cs));
    PrintedCandidates(metric, kind, c, seen);
    JoinPrinted(files, cs);
    assert StoredAll(files, metric, kind, c, seen) == Joined(files, StoredEntries(metric, kind, c, seen));
  }

  lemma PrintedCandidates(metric: Metric, kind: Kind, c: int, seen: seq<int>)
    requires forall b :: b in seen ==> b < c
    ensures Map(PrintNeighbour, Candidates(metric, kind, c, seen)) == StoredEntries(metric, kind, c, seen)
  {
    forall i | 0 <= i < |seen| ensures PrintNeighbour(Candidates(metric, kind, c, seen)[i])
         == StoredEntry(metric, kind, c, seen[i]) {
      assert seen[i] in seen;
    }
  }

  lemma StoredOfTopK(k: nat, ds: seq<real>)
    ensures Map(SixDecimals, TopK(RealLeq, k, ds)) == TopK(RealLeq, k, Map(SixDecimals, ds))
  {
    RealOrder();
    forall x, y | RealLeq(x, y) ensures RealLeq(SixDecimals(x), SixDecimals(y)) {
      SixDecimalsMonotone(x, y);
    }
    TopKMap(RealLeq, RealLeq, SixDecimals, k, ds);
  }

  lemma CandidateOfForwardRow(metric: Metric, kind: Kind, c: int, seen: seq<int>, k: nat, i: nat)
    requires i < |TopK(NeighbourLeq, k, Candidates(metric, kind, c, seen))|
    ensures var n := TopK(NeighbourLeq, k, Candidates(metric, kind, c, seen))[i];
      n.track in seen && n.d == metric(kind, c, n.track)
  {
    var cs := Candidates(metric, kind, c, seen);
    NeighbourOrder();
    TopKIsPart(NeighbourLeq, k, cs);
    var n := TopK(NeighbourLeq, k, cs)[i];
    assert n in multiset(TopK(NeighbourLeq, k, cs));
    assert n in cs;
  }

  lemma ForwardTracksDistinct(metric: Metric, kind: Kind, c: int, seen: seq<int>, k: nat)
    requires Distinct(seen)
    ensures var ns := TopK(NeighbourLeq, k, Candidates(metric, kind, c, seen));
      forall i, j :: 0 <= i < j < |ns| ==> ns[i].track != ns[j].track
  {
    var cs := Candidates(metric, kind, c, seen);
    var ns := TopK(NeighbourLeq, k, cs);
    NeighbourOrder();
    TopKIsPart(NeighbourLeq, k, cs);
    forall i, j | 0 <= i < j < |ns| ensures ns[i].track != ns[j].track {
      CandidateOfForwardRow(metric, kind, c, seen, k, i);
      CandidateOfForwardRow(metric, kind, c, seen, k, j);
      if ns[i].track == ns[j].track {
        assert ns[i].segment == ns[j].segment == -1 by {
          assert ns[i] in multiset(ns) && ns[j] in multiset(ns);
          assert ns[i] in cs && ns[j] in cs;
        }
        TwiceInMultiset(ns, i, j);
        OnceInMultiset(cs, ns[i]);
      }
    }
  }

  /** The table after a whole job is right for the longer list of meetings. */
  lemma EndOfJob(files: Files, rows: seq<Row>, metric: Metric, k: nat, met: seq<Meeting>, kind: Kind, c: int,
                 seen: seq<int>)
    requires MidJobOk(files, rows, metric, k, met, kind, c, seen)
    ensures var nearest := TopK(NeighbourLeq, k, Candidates(metric, kind, c, seen));
      IndexOk(files, rows + Printed(ForwardRows(kind, c, nearest)), metric, k, met + NewMeetings(kind, c, seen))
  {
    var met' := met + NewMeetings(kind, c, seen);
    MeetingsAfterJob(met, kind, c, seen);
    forall m | m in met' ensures m.a in files && m.b in files {
      NewMeetingsMembers(kind, c, seen, m);
    }
    EndOfJobRowsTrue(files, rows, metric, k, met, kind, c, seen);
    ForwardRowsTrue(metric, k, met, kind, c, seen);
    EndOfJobUnique(files, rows, metric, k, met, kind, c, seen);
    forall kd, a {
      EndOfJobAnswers(files, rows, metric, k, met, kind, c, seen, kd, a);
    }
  }

  lemma EndOfJobRowsTrue(files: Files, rows: seq<Row>, metric: Metric, k: nat, met: seq<Meeting>, kind: Kind, c: int,
                         seen: seq<int>)
    requires MidJobOk(files, rows, metric, k, met, kind, c, seen)
    ensures RowsTrue(rows, metric, met + NewMeetings(kind, c, seen))
  {
    forall r | r in rows ensures r.b in MetBy(met + NewMeetings(kind, c, seen), r.kind, r.a) {
      assert MidJobRow(r, metric, met, kind, c, seen);
      MetByAfterJob(met, kind, c, seen, r.kind, r.a);
    }
  }

  lemma ForwardRowsTrue(metric: Metric, k: nat, met: seq<Meeting>, kind: Kind, c: int, seen: seq<int>)
    requires Distinct(seen) && forall b :: b in seen ==> b < c
    ensures RowsTrue(Printed(ForwardRows(kind, c, TopK(NeighbourLeq, k, Candidates(metric, kind, c, seen)))),
                     metric, met + NewMeetings(kind, c, seen))
  {
    var forward := Printed(ForwardRows(kind, c, TopK(NeighbourLeq, k, Candidates(metric, kind, c, seen))));
    MetByAfterJob(met, kind, c, seen, kind, c);
    forall r | r in forward
      ensures r.value == Stored(metric, r.kind, r.a, r.b)
      ensures r.b in MetBy(met + NewMeetings(kind, c, seen), r.kind, r.a)
    {
      var i :| 0 <= i < |forward| && forward[i] == r;
      CandidateOfForwardRow(metric, kind, c, seen, k, i);
    }
  }

  lemma EndOfJobUnique(files: Files, rows: seq<Row>, metric: Metric, k: nat, met: seq<Meeting>, kind: Kind, c: int,
                       seen: seq<int>)
    requires MidJobOk(files, rows, metric, k, met, kind, c, seen)
    ensures UniqueRows(rows + Printed(ForwardRows(kind, c, TopK(NeighbourLeq, k, Candidates(metric, kind, c, seen)))))
  {
    ForwardTracksDistinct(metric, kind, c, seen, k);
    var nearest := TopK(NeighbourLeq, k, Candidates(metric, kind, c, seen));
    var forward := Printed(ForwardRows(kind, c, nearest));
    forall i, j | 0 <= i < |rows| && 0 <= j < |forward|
      ensures !(rows[i].kind == kind && rows[i].a == c && rows[i].b == forward[j].b)
    {
      CandidateOfForwardRow(metric, kind, c, seen, k, j);
      if rows[i].kind == kind {
        assert rows[i] in rows;
        NoForwardRowYet(rows[i], metric, met, kind, c, seen, forward[j].b);
      }
    }
  }

  lemma EndOfJobAnswers(files: Files, rows: seq<Row>, metric: Metric, k: nat, met: seq<Meeting>, kind: Kind, c: int,
                        seen: seq<int>, kd: Kind, a: int)
    requires MidJobOk(files, rows, metric, k, met, kind, c, seen)
    ensures var nearest := TopK(NeighbourLeq, k, Candidates(metric, kind, c, seen));
      TopK(RealLeq, k, Values(files, rows + Printed(ForwardRows(kind, c, nearest)), kd, a))
      == TopK(RealLeq, k, TrueValues(files, metric, kd, met + NewMeetings(kind, c, seen), a))
  {
    assert TopK(RealLeq, k, Values(files, rows, kd, a))
        == TopK(RealLeq, k, MidJobValues(files, metric, met, kind, c, seen, kd, a));
    assert CanMeet(files, met, kind, c, seen);
    hide MidJobOk, TopK, Values, MidJobValues, TrueValues;
    var nearest := TopK(NeighbourLeq, k, Candidates(metric, kind, c, seen));
    var before := MidJobValues(files, metric, met, kind, c, seen, kd, a);
    ForwardRowsAdded(files, rows, kind, c, nearest, kd, a);
    ValuesAfterJob(files, metric, met, kind, c, seen, kd, a);
    if kd == kind && a == c {
      ForwardValues(files, metric, kind, c, seen, k);
      RealOrder();
      TopKBoth(RealLeq, k, Values(files, rows, kd, a), before,
               Map(SixDecimals, Joined(files, nearest)), StoredAll(files, metric, kind, c, seen));
    }
  }

  /** The forward rows add to the values of the job's track only. */
  lemma ForwardRowsAdded(files: Files, rows: seq<Row>, kind: Kind, c: int, nearest: seq<Neighbour>, kd: Kind, a: int)
    ensures Values(files, rows + Printed(ForwardRows(kind, c, nearest)), kd, a)
         == if kd == kind && a == c then Values(files, rows, kd, a) + Map(SixDecimals, Joined(files, nearest))
            else Values(files, rows, kd, a)
  {
    hide Values, Joined, SixDecimals;
    ValuesConcat(files, rows, Printed(ForwardRows(kind, c, nearest)), kd, a);
    ValuesOfForwardRows(files, kind, c, nearest, kd, a);
    assert Values(files, rows, kd, a) + [] == Values(files, rows, kd, a);
  }

  /** What the meetings of a job add to the values of a track: all of its own for the job's track, and
      the one reverse value for the others. */
  lemma ValuesAfterJob(files: Files, metric: Metric, met: seq<Meeting>, kind: Kind, c: int, seen: seq<int>, kd: Kind,
                       a: int)
    requires Distinct(seen) && forall b :: b in seen ==> b < c
    ensures TrueValues(files, metric, kd, met + NewMeetings(kind, c, seen), a)
         == if kd == kind && a == c then
              MidJobValues(files, metric, met, kind, c, seen, kd, a) + StoredAll(files, metric, kind, c, seen)
            else MidJobValues(files, metric, met, kind, c, seen, kd, a)
  {
    hide StoredAll, MetBy;
    MetByAfterJob(met, kind, c, seen, kd, a);
    var ps := MetBy(met, kd, a);
    assert ps + [] == ps;
    if kd == kind && a == c {
      assert c !in seen;
      StoredConcat(files, metric, kd, a, ps, seen);
    }
  }

  /** A track that nobody has met has no rows. */
  lemma NoRowsOfUnmet(files: Files, rows: seq<Row>, metric: Metric, met: seq<Meeting>, kind: Kind, c: int)
    requires RowsTrue(rows, metric, met) && MetBy(met, kind, c) == []
    ensures Values(files, rows, kind, c) == []
  {
    forall r | r in rows ensures !(r.kind == kind && r.a == c) {
    }
    NoRowsNoValues(files, rows, kind, c);
  }

  // ------------------------------------------------------------ another file of a track

  lemma EntriesAmong(files: Files, rows: seq<Row>, metric: Metric, kind: Kind, a: int, ps: seq<int>)
    requires UniqueRows(rows) && Distinct(ps) && forall p :: p in ps ==> p in files
    requires forall r :: r in rows && r.kind == kind && r.a == a ==>
      r.value == Stored(metric, kind, a, r.b) && r.b in ps
    ensures var ns, all := Neighbours(rows, kind, a), StoredEntries(metric, kind, a, ps);
      multiset(ns) <= multiset(all) && DistinctTracks(ns) && DistinctTracks(all) && AllFound(files, all)
  {
    var ns, all := Neighbours(rows, kind, a), StoredEntries(metric, kind, a, ps);
    NeighbourTracksDistinct(rows, kind, a);
    forall n | n in ns ensures n in all {
      var i :| 0 <= i < |ns| && ns[i] == n;
      NeighbourIsRow(rows, kind, a, i);
      var p :| 0 <= p < |ps| && ps[p] == n.track;
      assert all[p] == n;
    }
    DistinctPart(ns, all);
    forall n | n in all ensures n.track in files {
      var i :| 0 <= i < |all| && all[i] == n;
      assert ps[i] in ps;
    }
  }

  /** When the first k values of a track are those of the tracks ps, they still are after one more
      file. */
  lemma AnswerWithFile(files: Files, rows: seq<Row>, metric: Metric, k: nat, kind: Kind, a: int, ps: seq<int>, t: int)
    requires UniqueRows(rows) && Distinct(ps) && forall p :: p in ps ==> p in files
    requires forall r :: r in rows && r.kind == kind && r.a == a ==>
      r.value == Stored(metric, kind, a, r.b) && r.b in ps
    requires TopK(RealLeq, k, Values(files, rows, kind, a)) == TopK(RealLeq, k, StoredAll(files, metric, kind, a, ps))
    ensures TopK(RealLeq, k, Values(files + multiset{t}, rows, kind, a))
         == TopK(RealLeq, k, StoredAll(files + multiset{t}, metric, kind, a, ps))
  {
    hide TopK;
    EntriesAmong(files, rows, metric, kind, a, ps);
    AnotherFile(files, Neighbours(rows, kind, a), StoredEntries(metric, kind, a, ps), t, k);
  }

  /** Another file of any track changes what queries give, but not the promise. */
  lemma IndexWithFile(files: Files, rows: seq<Row>, metric: Metric, k: nat, met: seq<Meeting>, t: int)
    requires IndexOk(files, rows, metric, k, met)
    ensures IndexOk(files + multiset{t}, rows, metric, k, met)
  {
    forall kind, a
      ensures TopK(RealLeq, k, Values(files + multiset{t}, rows, kind, a))
           == TopK(RealLeq, k, TrueValues(files + multiset{t}, metric, kind, met, a))
    {
      assert TopK(RealLeq, k, Values(files, rows, kind, a))
          == TopK(RealLeq, k, TrueValues(files, metric, kind, met, a));
      MetByDistinct(met, kind, a);
      PartnersHaveFiles(files, met, kind, a);
      hide TopK, Values, StoredAll;
      AnswerWithFile(files, rows, metric, k, kind, a, MetBy(met, kind, a), t);
    }
  }

  lemma PartnersHaveFiles(files: Files, met: seq<Meeting>, kind: Kind, a: int)
    requires MeetingsOk(met) && HaveFiles(files, met)
    ensures forall b :: b in MetBy(met, kind, a) ==> b in files
  {
    forall b | b in MetBy(met, kind, a) ensures b in files {
      MetByMembers(met, kind, a, b);
    }
  }

  /** Nor does it in the middle of a job. */
  lemma MidJobWithFile(files: Files, rows: seq<Row>, metric: Metric, k: nat, met: seq<Meeting>, kind: Kind, c: int,
                       seen: seq<int>, t: int)
    requires MidJobOk(files, rows, metric, k, met, kind, c, seen)
    ensures MidJobOk(files + multiset{t}, rows, metric, k, met, kind, c, seen)
  {
    forall kd, a
      ensures TopK(RealLeq, k, Values(files + multiset{t}, rows, kd, a))
           == TopK(RealLeq, k, MidJobValues(files + multiset{t}, metric, met, kind, c, seen, kd, a))
    {
      assert TopK(RealLeq, k, Values(files, rows, kd, a))
          == TopK(RealLeq, k, MidJobValues(files, metric, met, kind, c, seen, kd, a));
      MidJobPartnersDistinct(files, met, kind, c, seen, kd, a);
      forall r | r in rows && r.kind == kd && r.a == a
        ensures r.value == Stored(metric, kd, a, r.b) && r.b in MidJobPartners(met, kind, c, seen, kd, a)
      {
        assert MidJobRow(r, metric, met, kind, c, seen);
      }
      hide TopK, Values, StoredAll, MidJobPartners, MidJobRow;
      AnswerWithFile(files, rows, metric, k, kd, a, MidJobPartners(met, kind, c, seen, kd, a), t);
    }
  }

  lemma MidJobPartnersDistinct(files: Files, met: seq<Meeting>, kind: Kind, c: int, seen: seq<int>, kd: Kind, a: int)
    requires MeetingsOk(met) && HaveFiles(files, met) && CanMeet(files, met, kind, c, seen)
    ensures Distinct(MidJobPartners(met, kind, c, seen, kd, a))
    ensures forall p :: p in MidJobPartners(met, kind, c, seen, kd, a) ==> p in files
  {
    MetByDistinct(met, kd, a);
    PartnersHaveFiles(files, met, kd, a);
    if kd == kind && a in seen {
      NeverMet(met, kind, c, a);
    }
  }

  // ------------------------------------------------------------------- collections

  /** The entries that are not recorded. */
  function Unrecorded(all: seq<Neighbour>, ns: seq<Neighbour>): seq<Neighbour> {
    if all == [] then []
    else
      var n := all[|all| - 1];
      Unrecorded(all[..|all| - 1], ns) + if n in ns then [] else [n]
  }

  lemma {:induction false} UnrecordedCount(all: seq<Neighbour>, ns: seq<Neighbour>, n: Neighbour)
    ensures multiset(Unrecorded(all, ns))[n] == if n in ns then 0 else multiset(all)[n]
  {
    if all != [] {
      UnrecordedCount(all[..|all| - 1], ns, n);
      assert all == all[..|all| - 1] + [all[|all| - 1]];
    }
  }

  lemma RecordedAndNot(all: seq<Neighbour>, ns: seq<Neighbour>)
    requires multiset(ns) <= multiset(all) && DistinctTracks(all)
    ensures multiset(ns + Unrecorded(all, ns)) == multiset(all)
    ensures forall n :: n in Unrecorded(all, ns) ==> n in all && n !in ns
  {
    forall n ensures multiset(ns + Unrecorded(all, ns))[n] == multiset(all)[n] {
      UnrecordedCount(all, ns, n);
      OnceInMultiset(all, n);
      assert n in ns <==> n in multiset(ns);
    }
    forall n | n in Unrecorded(all, ns) ensures n in all && n !in ns {
      UnrecordedCount(all, ns, n);
      assert n in multiset(Unrecorded(all, ns)) && n in multiset(all) + multiset{};
    }
  }

  /** The stored entries of a track are among the true ones. */
  lemma StoredAreTrue(files: Files, rows: seq<Row>, metric: Metric, k: nat, met: seq<Meeting>, kind: Kind, a: int)
    requires IndexOk(files, rows, metric, k, met)
    ensures var ns, all := Neighbours(rows, kind, a), StoredEntries(metric, kind, a, MetBy(met, kind, a));
      multiset(ns) <= multiset(all) && DistinctTracks(ns) && DistinctTracks(all) && AllFound(files, all)
  {
    hide TopK, Values, TrueValues, MetBy;
    MetByDistinct(met, kind, a);
    PartnersHaveFiles(files, met, kind, a);
    EntriesAmong(files, rows, metric, kind, a, MetBy(met, kind, a));
  }

  /** A distance that is not recorded is not below the k-th recorded one, and there are k. */
  lemma UnrecordedIsFar(files: Files, ns: seq<Neighbour>, all: seq<Neighbour>, k: nat, e: Neighbour)
    requires multiset(ns) <= multiset(all) && e in all && e !in ns && e.track in files && k > 0
    requires TopK(RealLeq, k, Joined(files, ns)) == TopK(RealLeq, k, Joined(files, all))
    ensures |TopK(RealLeq, k, Joined(files, ns))| == k && TopK(RealLeq, k, Joined(files, ns))[k - 1] <= e.d
  {
    FewerHits(files, ns, all, e);
    LastOfSame(k, Joined(files, ns), Joined(files, all), e.d);
  }

  /** May a query for the first m rows of a collection be answered?  Either everything is recorded, or
      the answer ends at or below the k-th distance over all files. */
  predicate Answerable(first: seq<real>, k: nat, mine: seq<real>, m: nat) {
    || |first| < k
    || m == 0
    || (m <= |TopK(RealLeq, m, mine)| && k > 0 && TopK(RealLeq, m, mine)[m - 1] <= first[k - 1])
  }

  /** Then it is right for the collection, although the table was made for all files. */
  lemma CollectionAnswer(files: Files, within: Files, rows: seq<Row>, metric: Metric, k: nat, met: seq<Meeting>,
                         kind: Kind, a: int, m: nat)
    requires IndexOk(files, rows, metric, k, met) && k > 0
    requires Answerable(TopK(RealLeq, k, Values(files, rows, kind, a)), k, Values(within, rows, kind, a), m)
    ensures TopK(RealLeq, m, Values(within, rows, kind, a))
         == TopK(RealLeq, m, TrueValues(within, metric, kind, met, a))
  {
    assert TopK(RealLeq, k, Values(files, rows, kind, a)) == TopK(RealLeq, k, TrueValues(files, metric, kind, met, a));
    StoredAreTrue(files, rows, metric, k, met, kind, a);
    var ns, all := Neighbours(rows, kind, a), StoredEntries(metric, kind, a, MetBy(met, kind, a));
    hide TopK, Joined;
    EntriesOfCollection(files, within, ns, all, k, m);
  }

  lemma EntriesOfCollection(files: Files, within: Files, ns: seq<Neighbour>, all: seq<Neighbour>, k: nat, m: nat)
    requires multiset(ns) <= multiset(all) && DistinctTracks(all) && AllFound(files, all) && k > 0
    requires TopK(RealLeq, k, Joined(files, ns)) == TopK(RealLeq, k, Joined(files, all))
    requires Answerable(TopK(RealLeq, k, Joined(files, ns)), k, Joined(within, ns), m)
    ensures TopK(RealLeq, m, Joined(within, ns)) == TopK(RealLeq, m, Joined(within, all))
  {
    hide *;
    var rest := Unrecorded(all, ns);
    RecordedAndNot(all, ns);
    RealOrder();
    JoinPermutation(within, ns + rest, all);
    SortedAlike(m, Joined(within, ns + rest), Joined(within, all));
    JoinConcat(within, ns, rest);
    RestIsFar(files, within, ns, all, rest, k);
    FarRestIgnored(TopK(RealLeq, k, Joined(files, ns)), k, Joined(within, ns), Joined(within, rest), m);
  }

  lemma SortedAlike(m: nat, s: seq<real>, t: seq<real>)
    requires multiset(s) == multiset(t)
    ensures TopK(RealLeq, m, s) == TopK(RealLeq, m, t)
  {
    RealOrder();
    SortPermutation(RealLeq, s, t);
  }

  lemma RestIsFar(files: Files, within: Files, ns: seq<Neighbour>, all: seq<Neighbour>, rest: seq<Neighbour>, k: nat)
    requires multiset(ns) <= multiset(all) && AllFound(files, all) && k > 0
    requires TopK(RealLeq, k, Joined(files, ns)) == TopK(RealLeq, k, Joined(files, all))
    requires forall n :: n in rest ==> n in all && n !in ns
    ensures Joined(within, rest) != [] ==>
      && |TopK(RealLeq, k, Joined(files, ns))| == k
      && forall y :: y in Joined(within, rest) ==> TopK(RealLeq, k, Joined(files, ns))[k - 1] <= y
  {
    hide TopK, Joined;
    if Joined(within, rest) != [] {
      var e := JoinValue(within, rest, Joined(within, rest)[0]);
      UnrecordedIsFar(files, ns, all, k, e);
    }
    forall y | y in Joined(within, rest)
      ensures |TopK(RealLeq, k, Joined(files, ns))| == k && TopK(RealLeq, k, Joined(files, ns))[k - 1] <= y
    {
      var e := JoinValue(within, rest, y);
      UnrecordedIsFar(files, ns, all, k, e);
    }
  }

  lemma FarRestIgnored(first: seq<real>, k: nat, mine: seq<real>, more: seq<real>, m: nat)
    requires Answerable(first, k, mine, m) && k > 0
    requires more != [] ==> |first| == k && forall y :: y in more ==> first[k - 1] <= y
    ensures TopK(RealLeq, m, mine + more) == TopK(RealLeq, m, mine)
  {
    RealOrder();
    TopKIsPart(RealLeq, m, mine);
    TopKIsPart(RealLeq, m, mine + more);
    if more == [] {
      assert mine + more == mine;
    } else if m > 0 {
      forall y | y in more ensures RealLeq(TopK(RealLeq, m, mine)[m - 1], y) {
      }
      TopKIgnoresBehind(RealLeq, m, mine, more);
    }
  }

  // ------------------------------------------------------------------- purging

  /** Keeping k nearest rows of one track, whatever the order of equal ones, changes no first-k
      answer. */
  lemma PurgedIndex(files: Files, rows: seq<Row>, rows': seq<Row>, metric: Metric, k: nat, met: seq<Meeting>,
                    kind: Kind, track: int, sorted: seq<Neighbour>)
    requires IndexOk(files, rows, metric, k, met) && UniqueRows(rows')
    requires forall r :: r in rows' ==> r in rows
    requires multiset(sorted) == multiset(Neighbours(rows, kind, track)) && NearestFirst(sorted)
    requires multiset(Neighbours(rows', kind, track)) == multiset(Take(k, sorted))
    requires forall kd, a :: kd != kind || a != track ==> Neighbours(rows', kd, a) == Neighbours(rows, kd, a)
    ensures IndexOk(files, rows', metric, k, met)
  {
    forall kd, a
      ensures TopK(RealLeq, k, Values(files, rows', kd, a)) == TopK(RealLeq, k, TrueValues(files, metric, kd, met, a))
    {
      assert TopK(RealLeq, k, Values(files, rows, kd, a)) == TopK(RealLeq, k, TrueValues(files, metric, kd, met, a));
      if kd == kind && a == track {
        StoredFound(files, rows, metric, k, met, kd, a);
        FirstsStay(files, Neighbours(rows', kd, a), Neighbours(rows, kd, a), sorted, k);
      }
    }
  }

  lemma StoredFound(files: Files, rows: seq<Row>, metric: Metric, k: nat, met: seq<Meeting>, kind: Kind, a: int)
    requires IndexOk(files, rows, metric, k, met)
    ensures AllFound(files, Neighbours(rows, kind, a))
  {
    forall n | n in Neighbours(rows, kind, a) ensures n.track in files {
      var i :| 0 <= i < |Neighbours(rows, kind, a)| && Neighbours(rows, kind, a)[i] == n;
      NeighbourIsRow(rows, kind, a, i);
      MetByMembers(met, kind, a, n.track);
    }
  }

  lemma FirstsStay(files: Files, kept: seq<Neighbour>, ns: seq<Neighbour>, sorted: seq<Neighbour>, k: nat)
    requires multiset(sorted) == multiset(ns) && NearestFirst(sorted) && AllFound(files, ns)
    requires multiset(kept) == multiset(Take(k, sorted))
    ensures TopK(RealLeq, k, Joined(files, kept)) == TopK(RealLeq, k, Joined(files, ns))
  {
    RealOrder();
    forall n | n in Take(k, sorted) ensures n.track in files {
      assert n in sorted && n in multiset(sorted) && n in multiset(ns);
    }
    FirstOfSortedJoin(files, ns, sorted, k);
    JoinPermutation(files, kept, Take(k, sorted));
    SortPermutation(RealLeq, Joined(files, kept), Joined(files, Take(k, sorted)));
  }
}
