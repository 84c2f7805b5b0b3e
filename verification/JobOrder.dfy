/** The order of the jobs and the tracks that meet in them. */
module JobOrder {
  import opened Ordering
  import opened Distances
  import opened FileJoin
  import opened Store
  import opened Meetings

  /** The tracks of one kind in the order in which their jobs finished. */
  function Tracks(done: seq<Job>, kind: Kind): seq<int> {
    if done == [] then []
    else
      var j := done[|done| - 1];
      Tracks(done[..|done| - 1], kind) + if j.kind == kind then [j.track] else []
  }

  lemma {:induction false} TracksMembers(done: seq<Job>, kind: Kind)
    ensures forall t :: t in Tracks(done, kind) <==> Job(kind, t) in done
    ensures Distinct(done) ==> Distinct(Tracks(done, kind))
  {
    if done != [] {
      TracksMembers(done[..|done| - 1], kind);
      assert done == done[..|done| - 1] + [done[|done| - 1]];
    }
  }

  lemma TracksAppend(done: seq<Job>, j: Job, kind: Kind)
    ensures Tracks(done + [j], kind) == Tracks(done, kind) + if j.kind == kind then [j.track] else []
  {
    assert (done + [j])[..|done|] == done;
  }

  /** The processed tracks that `a` has met: a job meets the lower ids processed before it. */
  function Partners(ts: seq<int>, a: int): seq<int> {
    if ts == [] then []
    else
      var init, c := ts[..|ts| - 1], ts[|ts| - 1];
      if a == c then Below(init, c)
      else Partners(init, a) + if a < c && a in init then [c] else []
  }

  lemma {:induction false} PartnersAbsent(ts: seq<int>, a: int)
    requires a !in ts
    ensures Partners(ts, a) == []
  {
    if ts != [] {
      assert ts[|ts| - 1] in ts;
      PartnersAbsent(ts[..|ts| - 1], a);
    }
  }

  lemma {:induction false} PartnersInTracks(ts: seq<int>, a: int)
    ensures forall b :: b in Partners(ts, a) ==> b in ts && b != a && a in ts
  {
    if ts != [] {
      PartnersInTracks(ts[..|ts| - 1], a);
      BelowMembers(ts[..|ts| - 1], ts[|ts| - 1]);
      assert ts == ts[..|ts| - 1] + [ts[|ts| - 1]];
    }
  }

  lemma {:induction false} PartnersDistinct(ts: seq<int>, a: int)
    requires Distinct(ts)
    ensures Distinct(Partners(ts, a))
  {
    if ts != [] {
      var init, c := ts[..|ts| - 1], ts[|ts| - 1];
      assert ts == init + [c];
      PartnersDistinct(init, a);
      PartnersInTracks(init, a);
      BelowMembers(init, c);
      assert c !in init;
    }
  }

  lemma PartnersAppend(ts: seq<int>, c: int, a: int)
    ensures Partners(ts + [c], a)
         == if a == c then Below(ts, c) else Partners(ts, a) + if a < c && a in ts then [c] else []
  {
    assert (ts + [c])[..|ts|] == ts;
  }

  lemma {:induction false} PartnersSymmetric(ts: seq<int>, a: int, b: int)
    requires Distinct(ts)
    ensures b in Partners(ts, a) <==> a in Partners(ts, b)
  {
    if ts != [] {
      var init, c := ts[..|ts| - 1], ts[|ts| - 1];
      assert ts == init + [c] && c !in init;
      PartnersSymmetric(init, a, b);
      BelowMembers(init, c);
      PartnersInTracks(init, a);
      PartnersInTracks(init, b);
    }
  }

  // ------------------------------------------------- meetings follow from the order

  /** The meetings are those that the order of the finished jobs explains. */
  ghost predicate AsProcessed(met: seq<Meeting>, done: seq<Job>) {
    && Distinct(met)
    && forall m :: m in met <==> m.b < m.a && m.b in Partners(Tracks(done, m.kind), m.a)
  }

  lemma PartnersAfterJob(done: seq<Job>, kind: Kind, c: int, kd: Kind, a: int)
    ensures Partners(Tracks(done + [Job(kind, c)], kd), a)
         == if kd == kind && a == c then Below(Tracks(done, kind), c)
            else Partners(Tracks(done, kd), a) + if kd == kind && a < c && a in Tracks(done, kd) then [c] else []
  {
    TracksAppend(done, Job(kind, c), kd);
    if kd == kind {
      PartnersAppend(Tracks(done, kind), c, a);
    } else {
      assert Tracks(done + [Job(kind, c)], kd) == Tracks(done, kd);
    }
  }

  /** A track whose job has not run has met nobody. */
  lemma NotMetBefore(met: seq<Meeting>, done: seq<Job>, kind: Kind, c: int)
    requires AsProcessed(met, done) && Job(kind, c) !in done
    ensures MetBy(met, kind, c) == []
  {
    if MetBy(met, kind, c) != [] {
      var b := MetBy(met, kind, c)[0];
      MetByMembers(met, kind, c, b);
      TracksMembers(done, kind);
      PartnersInTracks(Tracks(done, kind), c);
      PartnersInTracks(Tracks(done, kind), b);
      assert false;
    }
  }

  /** The job of track c has met exactly the lower tracks whose jobs are done. */
  ghost predicate MetLowerDone(done: seq<Job>, kind: Kind, c: int, seen: seq<int>) {
    forall b :: b in seen <==> Job(kind, b) in done && b < c
  }

  /** After a job the meetings still follow from the order of the jobs if and only if it has met
      exactly the lower tracks whose jobs were done. */
  lemma AsProcessedAfterJobIff(met: seq<Meeting>, done: seq<Job>, kind: Kind, c: int, seen: seq<int>)
    requires AsProcessed(met, done) && Job(kind, c) !in done
    requires Distinct(seen) && forall b :: b in seen ==> b < c
    ensures AsProcessed(met + NewMeetings(kind, c, seen), done + [Job(kind, c)]) <==> MetLowerDone(done, kind, c, seen)
  {
    var met', done' := met + NewMeetings(kind, c, seen), done + [Job(kind, c)];
    TracksMembers(done, kind);
    BelowMembers(Tracks(done, kind), c);
    PartnersAbsent(Tracks(done, kind), c);
    assert Unmet(met, kind, c);
    MeetingsAfterJob(met, kind, c, seen);
    hide Partners, Below, MetBy;
    forall m: Meeting
      ensures m in met' <==> m in met || (m.kind == kind && m.a == c && m.b in seen)
      ensures m.b < m.a && m.b in Partners(Tracks(done', m.kind), m.a)
         <==> m in met || (m.kind == kind && m.a == c && m.b < c && Job(kind, m.b) in done)
    {
      NewMeetingsMembers(kind, c, seen, m);
      PartnersAfterJob(done, kind, c, m.kind, m.a);
    }
    if AsProcessed(met', done') {
      forall b ensures b in seen <==> Job(kind, b) in done && b < c {
        assert Meeting(kind, c, b) in met' <==> b in seen;
        assert Meeting(kind, c, b) !in met;
      }
    }
  }

  /** The tracks met in all jobs are the partners that the order of the jobs gives. */
  lemma MetArePartners(met: seq<Meeting>, done: seq<Job>, kind: Kind, a: int)
    requires AsProcessed(met, done) && Distinct(done)
    ensures forall b :: b in MetBy(met, kind, a) <==> b in Partners(Tracks(done, kind), a)
  {
    TracksMembers(done, kind);
    var ts := Tracks(done, kind);
    PartnersInTracks(ts, a);
    forall b ensures b in MetBy(met, kind, a) <==> b in Partners(ts, a) {
      MetByMembers(met, kind, a, b);
      PartnersSymmetric(ts, a, b);
    }
  }

  // ------------------------------------------------- the tracks that a job chooses

  /** Every lower track with a feature vector has its job done. */
  ghost predicate LowerDone(fvs: seq<FvRecord>, done: seq<Job>, job: Job) {
    forall f :: f in fvs && f.fvt == job.kind.fvt && f.track < job.track ==> Job(job.kind, f.track) in done
  }

  /** It holds for the first open job of a kind, when no job is claimed or failed. */
  lemma LowerTracksAreDone(fvs: seq<FvRecord>, open: set<Job>, done: seq<Job>, distanceTypes: seq<int>, job: Job)
    requires JobsConsistent(fvs, open, done, {}, distanceTypes) && FirstOfKind(job, open)
    ensures LowerDone(fvs, done, job)
  {
    forall f | f in fvs && f.fvt == job.kind.fvt && f.track < job.track ensures Job(job.kind, f.track) in done {
      var j := Job(Kind(f.fvt, job.kind.dist), f.track);
      assert j in open || j in done;
      assert j == Job(job.kind, f.track);
    }
  }

  /** The lower tracks that a job queries are those whose jobs are done if and only if that holds. */
  lemma FreshTracksIff(fvs: seq<FvRecord>, done: seq<Job>, job: Job)
    requires forall j :: j in done ==> FvRecord(j.kind.fvt, j.track) in fvs
    ensures MetLowerDone(done, job.kind, job.track, Below(LowerTracks(fvs, job.kind.fvt, job.track), job.track))
       <==> LowerDone(fvs, done, job)
  {
    var ts := LowerTracks(fvs, job.kind.fvt, job.track);
    TrackLists(fvs, job.kind.fvt, job.track);
    BelowMembers(ts, job.track);
    if MetLowerDone(done, job.kind, job.track, Below(ts, job.track)) {
      forall f | f in fvs && f.fvt == job.kind.fvt && f.track < job.track ensures Job(job.kind, f.track) in done {
        assert f == FvRecord(job.kind.fvt, f.track);
      }
    }
  }

  /** With the frozen list of bulk mode it is enough that the list covers the finished jobs. */
  lemma FrozenTracks(fvs: seq<FvRecord>, done: seq<Job>, job: Job, frozen: seq<int>)
    requires LowerDone(fvs, done, job)
    requires forall t :: t in frozen ==> FvRecord(job.kind.fvt, t) in fvs
    requires forall j :: j in done && j.kind.fvt == job.kind.fvt ==> j.track in frozen
    ensures MetLowerDone(done, job.kind, job.track, Below(frozen, job.track))
  {
    BelowMembers(frozen, job.track);
    forall b | b in frozen && b < job.track ensures Job(job.kind, b) in done {
      assert FvRecord(job.kind.fvt, b) in fvs;
    }
  }

  // ------------------------------------------------- all pairs

  ghost predicate Increasing(ts: seq<int>) {
    forall i, j :: 0 <= i < j < |ts| ==> ts[i] < ts[j]
  }

  function Others(ts: seq<int>, a: int): seq<int> {
    if ts == [] then []
    else Others(ts[..|ts| - 1], a) + if ts[|ts| - 1] == a then [] else [ts[|ts| - 1]]
  }

  /** Two processed tracks have met if and only if the lower id was processed first. */
  lemma {:induction false} PairMetIff(ts: seq<int>, i: nat, j: nat)
    requires Distinct(ts) && i < j < |ts|
    ensures ts[j] in Partners(ts, ts[i]) <==> ts[i] < ts[j]
    ensures ts[i] in Partners(ts, ts[j]) <==> ts[i] < ts[j]
  {
    var init, c := ts[..|ts| - 1], ts[|ts| - 1];
    assert forall n :: 0 <= n < |init| ==> init[n] == ts[n];
    if j == |ts| - 1 {
      BelowMembers(init, c);
      PartnersInTracks(init, ts[i]);
      assert init[i] in init && c !in init;
    } else {
      PairMetIff(init, i, j);
      assert c != ts[i] && c != ts[j];
    }
  }

  ghost predicate EveryPairMet(ts: seq<int>) {
    forall a, b :: a in ts && b in ts && a != b ==> b in Partners(ts, a)
  }

  /** All processed tracks have met each other exactly when they were processed in
      increasing order. */
  lemma EveryPairMetIffInOrder(ts: seq<int>)
    requires Distinct(ts)
    ensures EveryPairMet(ts) <==> Increasing(ts)
  {
    forall i, j | 0 <= i < j < |ts|
      ensures ts[j] in Partners(ts, ts[i]) <==> ts[i] < ts[j]
      ensures ts[i] in Partners(ts, ts[j]) <==> ts[i] < ts[j]
    {
      PairMetIff(ts, i, j);
    }
    if Increasing(ts) {
      forall a, b | a in ts && b in ts && a != b ensures b in Partners(ts, a) {
        var i :| 0 <= i < |ts| && ts[i] == a;
        var j :| 0 <= j < |ts| && ts[j] == b;
      }
    } else {
      var i, j :| 0 <= i < j < |ts| && ts[i] >= ts[j];
      assert ts[i] in ts && ts[j] in ts && ts[j] !in Partners(ts, ts[i]);
    }
  }

  lemma {:induction false} OthersMembers(ts: seq<int>, a: int)
    ensures forall b :: b in Others(ts, a) <==> b in ts && b != a
  {
    if ts != [] {
      OthersMembers(ts[..|ts| - 1], a);
      assert ts == ts[..|ts| - 1] + [ts[|ts| - 1]];
    }
  }

  lemma {:induction false} OthersInOrder(ts: seq<int>, a: int)
    requires Increasing(ts) && a in ts
    ensures Partners(ts, a) == Others(ts, a)
  {
    var init, c := ts[..|ts| - 1], ts[|ts| - 1];
    assert ts == init + [c];
    if a == c {
      AllBelow(init, c);
    } else {
      OthersInOrder(init, a);
    }
  }

  lemma {:induction false} AllBelow(ts: seq<int>, c: int)
    requires forall t :: t in ts ==> t < c
    ensures Below(ts, c) == ts == Others(ts, c)
  {
    if ts != [] {
      var init, last := ts[..|ts| - 1], ts[|ts| - 1];
      assert ts == init + [last];
      forall t | t in init ensures t < c {
        assert t in ts;
      }
      assert last in ts;
      AllBelow(init, c);
    }
  }

  lemma {:induction false} OthersDistinct(ts: seq<int>, a: int)
    requires Distinct(ts)
    ensures Distinct(Others(ts, a))
  {
    if ts != [] {
      var init, c := ts[..|ts| - 1], ts[|ts| - 1];
      assert ts == init + [c] && c !in init;
      OthersDistinct(init, a);
      OthersMembers(init, a);
    }
  }

  /** Every track of the list has met exactly the others. */
  ghost predicate AllMet(met: seq<Meeting>, kind: Kind, ts: seq<int>) {
    forall a :: a in ts ==> MetTheOthers(met, kind, ts, a)
  }

  ghost predicate MetTheOthers(met: seq<Meeting>, kind: Kind, ts: seq<int>, a: int) {
    forall b :: b in MetBy(met, kind, a) <==> b in ts && b != a
  }

  /** All processed tracks have met each other exactly when the jobs ran in increasing track order. */
  lemma AllMetIffInOrder(met: seq<Meeting>, done: seq<Job>, kind: Kind)
    requires AsProcessed(met, done) && Distinct(done)
    ensures AllMet(met, kind, Tracks(done, kind)) <==> Increasing(Tracks(done, kind))
  {
    var ts := Tracks(done, kind);
    TracksMembers(done, kind);
    EveryPairMetIffInOrder(ts);
    hide *;
    forall a ensures a in ts ==> (MetTheOthers(met, kind, ts, a) <==> HasMetAll(ts, a)) {
      MetTheOthersIff(met, done, kind, a);
    }
    AllHaveMet(met, kind, ts);
  }

  ghost predicate HasMetAll(ts: seq<int>, a: int) {
    forall b :: b in ts && b != a ==> b in Partners(ts, a)
  }

  lemma MetTheOthersIff(met: seq<Meeting>, done: seq<Job>, kind: Kind, a: int)
    requires AsProcessed(met, done) && Distinct(done)
    ensures MetTheOthers(met, kind, Tracks(done, kind), a) <==> HasMetAll(Tracks(done, kind), a)
  {
    MetArePartners(met, done, kind, a);
    PartnersInTracks(Tracks(done, kind), a);
    hide MetBy, Partners, Tracks, AsProcessed;
  }

  lemma AllHaveMet(met: seq<Meeting>, kind: Kind, ts: seq<int>)
    requires forall a :: a in ts ==> (MetTheOthers(met, kind, ts, a) <==> HasMetAll(ts, a))
    ensures AllMet(met, kind, ts) <==> EveryPairMet(ts)
  {
    hide MetTheOthers, Partners;
    if EveryPairMet(ts) {
      forall a | a in ts ensures HasMetAll(ts, a) {
      }
    }
  }

  /** Each unordered pair of tracks processed in order meets exactly once, in the job of the higher. */
  lemma EachPairOnce(met: seq<Meeting>, done: seq<Job>, kind: Kind, a: int, b: int)
    requires AsProcessed(met, done) && Distinct(done) && Increasing(Tracks(done, kind))
    requires Job(kind, a) in done && Job(kind, b) in done && b < a
    ensures multiset(met)[Meeting(kind, a, b)] == 1
    ensures Meeting(kind, b, a) !in met
  {
    TracksMembers(done, kind);
    EveryPairMetIffInOrder(Tracks(done, kind));
    OnceInMultiset(met, Meeting(kind, a, b));
    assert Meeting(kind, a, b) in met;
  }
}
