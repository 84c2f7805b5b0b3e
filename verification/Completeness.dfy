/** When the promise about the pairs that met is a promise about all pairs. */
module Completeness {
  import opened Ordering
  import opened Distances
  import opened FileJoin
  import opened Store
  import opened Meetings
  import opened JobOrder
  import opened TopkIndex

  /** The first-k values over the pairs that met are those over all pairs, for every track of ts. */
  ghost predicate MetSuffices(files: Files, metric: Metric, k: nat, met: seq<Meeting>, kind: Kind, ts: seq<int>) {
    forall a :: a in ts ==>
      TopK(RealLeq, k, TrueValues(files, metric, kind, met, a))
      == TopK(RealLeq, k, StoredAll(files, metric, kind, a, Others(ts, a)))
  }

  /** A distance function under which one pair is nearer than all others. */
  function Nearest(x: int, y: int): Metric {
    (kind, a, b) => if {a, b} == {x, y} then 0.0 else 1.0
  }

  /** Among the k least values there is one that is as small as any given value. */
  lemma LeastIsAmongFirst(s: seq<real>, k: nat, v: real)
    requires k >= 1 && v in s
    ensures TopK(RealLeq, k, s) != [] && TopK(RealLeq, k, s)[0] in s && TopK(RealLeq, k, s)[0] <= v
  {
    RealOrder();
    SortSorts(RealLeq, s);
    var r := Sort(RealLeq, s);
    assert v in multiset(s) && v in r;
    LeastIsFirst(RealLeq, r, v);
    assert r[0] in multiset(r);
    assert TopK(RealLeq, k, s)[0] == r[0];
  }

  lemma FirstsDiffer(k: nat, all: seq<real>, met: seq<real>)
    requires k >= 1 && 0.0 in all && forall v :: v in met ==> v == 1.0
    ensures TopK(RealLeq, k, all) != TopK(RealLeq, k, met)
  {
    hide Sort;
    LeastIsAmongFirst(all, k, 0.0);
    if met != [] {
      LeastIsAmongFirst(met, k, met[0]);
    } else {
      RealOrder();
      TopKIsPart(RealLeq, k, met);
    }
  }

  /** A pair that has not met, or that has met but is not asked for, leaves a wrong answer under some
      distance function. */
  lemma WrongPairIsSeen(files: Files, k: nat, met: seq<Meeting>, kind: Kind, ts: seq<int>, a: int, b: int)
    requires k >= 1 && MeetingsOk(met) && a in ts && a != b && b in files
    requires b in MetBy(met, kind, a) <==> b !in ts
    ensures !MetSuffices(files, Nearest(a, b), k, met, kind, ts)
  {
    hide TopK, MetBy, Others, Nearest, StoredAll;
    OthersMembers(ts, a);
    MetByDistinct(met, kind, a);
    var all, some := StoredAll(files, Nearest(a, b), kind, a, Others(ts, a)),
                     StoredAll(files, Nearest(a, b), kind, a, MetBy(met, kind, a));
    if b in ts {
      NearestIsStored(files, kind, a, b, Others(ts, a), MetBy(met, kind, a));
      FirstsDiffer(k, all, some);
    } else {
      NearestIsStored(files, kind, a, b, MetBy(met, kind, a), Others(ts, a));
      FirstsDiffer(k, some, all);
    }
  }

  /** The pair is stored as zero in the one list, and no entry of the other one is. */
  lemma NearestIsStored(files: Files, kind: Kind, a: int, b: int, bs: seq<int>, cs: seq<int>)
    requires b in bs && a != b && b in files && a !in cs && b !in cs
    ensures 0.0 in StoredAll(files, Nearest(a, b), kind, a, bs)
    ensures forall v :: v in StoredAll(files, Nearest(a, b), kind, a, cs) ==> v == 1.0
  {
    var metric := Nearest(a, b);
    RoundInteger(0);
    RoundInteger(1000000);
    assert Stored(metric, kind, a, b) == 0.0;
    hide Joined;
    StoredOnce(files, metric, kind, a, bs, b);
    forall v | v in StoredAll(files, metric, kind, a, cs) ensures v == 1.0 {
      var p := StoredFrom(files, metric, kind, a, cs, v);
      assert p != a && p != b;
    }
  }

  lemma StoredOnce(files: Files, metric: Metric, kind: Kind, a: int, bs: seq<int>, b: int)
    requires b in bs && b in files
    ensures Stored(metric, kind, a, b) in StoredAll(files, metric, kind, a, bs)
  {
    var i :| 0 <= i < |bs| && bs[i] == b;
    assert StoredEntries(metric, kind, a, bs)[i] == StoredEntry(metric, kind, a, b);
    JoinedValue(files, StoredEntries(metric, kind, a, bs), StoredEntry(metric, kind, a, b));
  }

  lemma StoredFrom(files: Files, metric: Metric, kind: Kind, a: int, bs: seq<int>, v: real) returns (b: int)
    requires v in StoredAll(files, metric, kind, a, bs)
    ensures b in bs && v == Stored(metric, kind, a, b)
  {
    var n := JoinValue(files, StoredEntries(metric, kind, a, bs), v);
    var i :| 0 <= i < |bs| && StoredEntries(metric, kind, a, bs)[i] == n;
    b := bs[i];
  }

  /** The pairs that met give every answer over the tracks ts, whatever the distances are: this holds
      if and only if each of them has met exactly the others. */
  lemma CompleteIffAllMet(files: Files, k: nat, met: seq<Meeting>, kind: Kind, ts: seq<int>)
    requires MeetingsOk(met) && HaveFiles(files, met) && Distinct(ts) && k >= 1
    requires forall t :: t in ts ==> t in files
    ensures (forall metric: Metric :: MetSuffices(files, metric, k, met, kind, ts)) <==> AllMet(met, kind, ts)
  {
    if AllMet(met, kind, ts) {
      forall metric: Metric, a | a in ts
        ensures TopK(RealLeq, k, TrueValues(files, metric, kind, met, a))
             == TopK(RealLeq, k, StoredAll(files, metric, kind, a, Others(ts, a)))
      {
        SameAnswer(files, metric, k, met, kind, ts, a);
      }
    } else {
      hide MetSuffices;
      var a :| a in ts && !MetTheOthers(met, kind, ts, a);
      var b :| (b in MetBy(met, kind, a)) != (b in ts && b != a);
      MetByDistinct(met, kind, a);
      PartnersHaveFiles(files, met, kind, a);
      WrongPairIsSeen(files, k, met, kind, ts, a, b);
    }
  }

  lemma SameAnswer(files: Files, metric: Metric, k: nat, met: seq<Meeting>, kind: Kind, ts: seq<int>, a: int)
    requires MeetingsOk(met) && Distinct(ts) && MetTheOthers(met, kind, ts, a)
    ensures TopK(RealLeq, k, TrueValues(files, metric, kind, met, a))
         == TopK(RealLeq, k, StoredAll(files, metric, kind, a, Others(ts, a)))
  {
    MetByDistinct(met, kind, a);
    OthersMembers(ts, a);
    OthersDistinct(ts, a);
    SameMembersPermutation(MetBy(met, kind, a), Others(ts, a));
    StoredPermutation(files, metric, kind, a, MetBy(met, kind, a), Others(ts, a));
    RealOrder();
    SortPermutation(RealLeq, TrueValues(files, metric, kind, met, a), StoredAll(files, metric, kind, a, Others(ts, a)));
  }

  // ------------------------------------------------------------ the table

  /** Every first-k query for a track of ts gives what a table of all pairs of ts would give. */
  ghost predicate Answers(files: Files, rows: seq<Row>, metric: Metric, k: nat, kind: Kind, ts: seq<int>) {
    forall a :: a in ts ==>
      TopK(RealLeq, k, Values(files, rows, kind, a))
      == TopK(RealLeq, k, StoredAll(files, metric, kind, a, Others(ts, a)))
  }

  lemma AnswersIffMetSuffices(files: Files, rows: seq<Row>, metric: Metric, k: nat, met: seq<Meeting>, kind: Kind,
                              ts: seq<int>)
    requires IndexOk(files, rows, metric, k, met)
    ensures Answers(files, rows, metric, k, kind, ts) <==> MetSuffices(files, metric, k, met, kind, ts)
  {
    forall a
      ensures TopK(RealLeq, k, Values(files, rows, kind, a))
           == TopK(RealLeq, k, TrueValues(files, metric, kind, met, a))
    {
    }
    hide TopK, Values, TrueValues, StoredAll;
  }

  /** A table for every distance function. */
  type Tables = Metric -> seq<Row>

  ghost predicate AllKeepPromise(files: Files, tables: Tables, k: nat, met: seq<Meeting>) {
    forall metric: Metric :: IndexOk(files, tables(metric), metric, k, met)
  }

  ghost predicate AllAnswer(files: Files, tables: Tables, k: nat, kind: Kind, ts: seq<int>) {
    forall metric: Metric :: Answers(files, tables(metric), metric, k, kind, ts)
  }

  /** The same for the table: whatever rows keep the promise, their answers over the tracks ts are
      right for every distance function if and only if each of them has met exactly the others. */
  lemma TableCompleteIffAllMet(files: Files, k: nat, met: seq<Meeting>, tables: Tables, kind: Kind, ts: seq<int>)
    requires Distinct(ts) && k >= 1 && AllKeepPromise(files, tables, k, met)
    requires forall t :: t in ts ==> t in files
    ensures AllAnswer(files, tables, k, kind, ts) <==> AllMet(met, kind, ts)
  {
    assert MeetingsOk(met) && HaveFiles(files, met) by {
      assert IndexOk(files, tables(Nearest(0, 1)), Nearest(0, 1), k, met);
    }
    hide Answers, MetSuffices, IndexOk, AllMet;
    CompleteIffAllMet(files, k, met, kind, ts);
    forall metric: Metric
      ensures Answers(files, tables(metric), metric, k, kind, ts) <==> MetSuffices(files, metric, k, met, kind, ts)
    {
      AnswersIffMetSuffices(files, tables(metric), metric, k, met, kind, ts);
    }
  }

  /** When the meetings follow from the order of the jobs, the answers over all processed tracks are
      right for every distance function if and only if the jobs ran in increasing track order. */
  lemma TableCompleteIffInOrder(files: Files, k: nat, met: seq<Meeting>, done: seq<Job>, tables: Tables, kind: Kind)
    requires AsProcessed(met, done) && Distinct(done) && k >= 1 && AllKeepPromise(files, tables, k, met)
    requires forall j :: j in done ==> j.track in files
    ensures AllAnswer(files, tables, k, kind, Tracks(done, kind)) <==> Increasing(Tracks(done, kind))
  {
    TracksMembers(done, kind);
    AllMetIffInOrder(met, done, kind);
    hide AllAnswer, AllMet, Increasing, AllKeepPromise;
    TableCompleteIffAllMet(files, k, met, tables, kind, Tracks(done, kind));
  }

  /** Every first-k query of a processed track gives what a table of all pairs would give. */
  ghost predicate AnswersComplete(files: Files, rows: seq<Row>, metric: Metric, k: nat, done: seq<Job>) {
    forall kind :: Answers(files, rows, metric, k, kind, Tracks(done, kind))
  }

  /** When jobs ran in increasing order, all answers are complete. */
  lemma CompleteAnswers(files: Files, rows: seq<Row>, metric: Metric, k: nat, met: seq<Meeting>, done: seq<Job>)
    requires IndexOk(files, rows, metric, k, met) && AsProcessed(met, done) && Distinct(done)
    requires forall kind :: Increasing(Tracks(done, kind))
    ensures AnswersComplete(files, rows, metric, k, done)
  {
    forall kind ensures Answers(files, rows, metric, k, kind, Tracks(done, kind)) {
      TracksMembers(done, kind);
      AllMetIffInOrder(met, done, kind);
      forall a | a in Tracks(done, kind) {
        SameAnswer(files, metric, k, met, kind, Tracks(done, kind), a);
      }
      assert MetSuffices(files, metric, k, met, kind, Tracks(done, kind));
      AnswersIffMetSuffices(files, rows, metric, k, met, kind, Tracks(done, kind));
    }
  }
}
