/** Two runs in which a cache that is not sound hides a row: a failed job that leaves its distances
    behind, and a lower track that arrives after its turn. */
module LostRows {
  import opened Ordering
  import opened Distances
  import opened FileJoin
  import opened Store
  import opened Meetings
  import opened JobOrder
  import opened TopkIndex
  import opened Cache
  import opened Daemon

  // ------------------------------------------------------------ stores to start from

  function Vectors(fvt: int, tracks: seq<int>): (r: seq<FvRecord>)
    ensures |r| == |tracks| && forall i :: 0 <= i < |tracks| ==> r[i] == FvRecord(fvt, tracks[i])
  {
    seq(|tracks|, i requires 0 <= i < |tracks| => FvRecord(fvt, tracks[i]))
  }

  lemma {:induction false} LowerOfVectors(fvt: int, tracks: seq<int>, c: int)
    ensures LowerTracks(Vectors(fvt, tracks), fvt, c) == Below(tracks, c)
    ensures Distinct(tracks) ==> Distinct(Vectors(fvt, tracks))
  {
    if tracks == [] {
      assert Vectors(fvt, tracks) == [];
    } else {
      var init := tracks[..|tracks| - 1];
      LowerOfVectors(fvt, init, c);
      assert Vectors(fvt, tracks)[..|tracks| - 1] == Vectors(fvt, init);
    }
  }

  lemma BelowAppend(tracks: seq<int>, t: int, c: int)
    ensures Below(tracks + [t], c) == Below(tracks, c) + if t < c then [t] else []
  {
    assert (tracks + [t])[..|tracks|] == tracks;
  }

  lemma BelowTwo()
    ensures Below([1, 2, 3], 2) == Below([1, 3, 4, 2], 2) == Below([1], 2) == [1]
    ensures Below([1, 3, 4, 2], 3) == Below([1, 2], 3) == [1, 2]
  {
    hide Below;
    forall n ensures Below([], n) == [] {
      BelowNone(n);
    }
    forall n, ts, t ensures Below(ts + [t], n) == Below(ts, n) + if t < n then [t] else [] {
      BelowAppend(ts, t, n);
    }
    assert [] + [1] == [1] && [1] + [2] == [1, 2] && [1, 2] + [3] == [1, 2, 3];
    assert [1] + [3] == [1, 3] && [1, 3] + [4] == [1, 3, 4] && [1, 3, 4] + [2] == [1, 3, 4, 2];
  }

  lemma BelowNone(c: int)
    ensures Below([], c) == []
  {
  }

  lemma NextVector(fvt: int, tracks: seq<int>, t: int)
    ensures Vectors(fvt, tracks + [t]) == Vectors(fvt, tracks) + [FvRecord(fvt, t)]
    ensures t !in tracks ==> FvRecord(fvt, t) !in Vectors(fvt, tracks)
  {
  }

  /** A store with some tracks of one kind, nothing computed. */
  method StoreOf(kind: Kind, tracks: seq<int>) returns (db: Store)
    requires Distinct(tracks)
    ensures fresh(db) && db.JobsOk() && db.FilesOk() && db.distanceTypes == [kind.dist] && db.files == multiset(tracks)
    ensures db.distance == [] && db.queue == [] && db.done == [] && db.met == [] && db.failed == {}
    ensures db.featurevectors == Vectors(kind.fvt, tracks)
    ensures forall t :: t in tracks ==> Job(kind, t) in db.open
  {
    hide JobsConsistent, Store.FilesOk, Vectors;
    db := new Store([kind.dist]);
    NoJobs(db.distanceTypes);
    db.NothingRunning();
    var i := 0;
    assert tracks[..0] == [];
    while i < |tracks|
      invariant 0 <= i <= |tracks|
      invariant fresh(db) && db.JobsRunning({}) && db.FilesOk() && db.files == multiset(tracks[..i])
      invariant db.distance == [] && db.queue == [] && db.done == [] && db.met == [] && db.failed == {}
      invariant db.featurevectors == Vectors(kind.fvt, tracks[..i])
      invariant forall t :: t in tracks[..i] ==> Job(kind, t) in db.open
    {
      assert tracks[..i + 1] == tracks[..i] + [tracks[i]];
      NextVector(kind.fvt, tracks[..i], tracks[i]);
      TrackArrives(db, kind, tracks[i], {});
      i := i + 1;
    }
    assert tracks[..i] == tracks;
    db.NothingRunning();
  }

  lemma NoJobs(distanceTypes: seq<int>)
    ensures JobsConsistent([], {}, [], {}, distanceTypes)
  {
  }

  /** Another program stores a track with its file and its vector. */
  method TrackArrives(db: Store, kind: Kind, track: int, ghost claimed: set<Job>)
    requires db.JobsRunning(claimed) && db.FilesOk()
    requires db.distanceTypes == [kind.dist] && FvRecord(kind.fvt, track) !in db.featurevectors
    modifies db`files, db`featurevectors, db`open
    ensures db.JobsRunning(claimed) && db.FilesOk()
    ensures db.files == old(db.files) + multiset{track}
    ensures db.featurevectors == old(db.featurevectors) + [FvRecord(kind.fvt, track)]
    ensures db.open == old(db.open) + {Job(kind, track)}
  {
    hide JobsConsistent;
    db.StoreFile(track);
    db.AddFeatureVector(FvRecord(kind.fvt, track), claimed);
    assert Kind(kind.fvt, kind.dist) == kind;
  }

  /** A daemon that takes the table to be empty at the start, with the job of track 1 done. */
  method DaemonOf(kind: Kind, metric: Metric, topK: nat, tracks: seq<int>) returns (d: Daemon)
    requires topK >= 1 && Distinct(tracks) && 1 in tracks
    ensures fresh(d) && fresh(d.db) && d.TablesOk({}) && d.Sound() && d.topDs == map[] && d.safeRemovable == topK - 1
    ensures d.topK == topK && d.metric == metric && d.initialRun && !d.bulk && d.db.distanceTypes == [kind.dist]
    ensures d.db.files == multiset(tracks) && d.db.featurevectors == Vectors(kind.fvt, tracks)
    ensures d.db.distance == [] && d.db.queue == [] && d.db.done == [Job(kind, 1)] && d.db.met == []
    ensures forall t :: t in tracks && t != 1 ==> Job(kind, t) in d.db.open
  {
    hide JobsConsistent, IndexOk, CacheOk, Vectors, Store.FilesOk;
    var db := StoreOf(kind, tracks);
    var job := Job(kind, 1);
    FirstJobDone(db, job);
    db.ClaimTask(job);
    db.MarkDone(job, []);
    EmptyIndex(db.files, metric, topK);
    d := new Daemon(db, topK, metric, true, false);
  }

  lemma FirstJobDone(db: Store, job: Job)
    requires db.JobsOk() && job in db.open && db.done == [] && db.failed == {}
    ensures JobsConsistent(db.featurevectors, db.open - {job}, [] + [job], db.failed, db.distanceTypes)
  {
    JobClaimed(db.featurevectors, db.open, [], {}, db.distanceTypes, job);
    JobFinished(db.featurevectors, db.open - {job}, [], {}, db.distanceTypes, job);
  }

  lemma EmptyIndex(files: Files, metric: Metric, topK: nat)
    ensures IndexOk(files, [], metric, topK, [])
  {
    forall kind, a ensures Values(files, [], kind, a) == TrueValues(files, metric, kind, [], a) {
    }
  }

  /** Claims a job of the daemon's kind and fetches its vector; nothing is reloaded. */
  method Begin(d: Daemon, job: Job) returns (claimed: bool)
    requires d.TablesOk({}) && d.Sound() && d.db.queue == [] && job in d.db.open && d.initialRun
    modifies d`topDs, d`fvBuffer, d`lastFvt, d`lastDist, d.db`open, d.db`queue, d.db`distance
    ensures d.db.queue == [] && d.db.distance == old(d.db.distance)
    ensures claimed ==> d.TablesOk({job}) && d.Sound() && d.LastKind() == job.kind
    ensures claimed ==>
      forall t :: ListOf(d.topDs, t) == if old(d.LastKind()) == job.kind then ListOf(old(d.topDs), t) else []
    ensures claimed ==> d.db.open == old(d.db.open) - {job}
    ensures d.db.done == old(d.db.done) && d.db.featurevectors == old(d.db.featurevectors)
  {
    hide JobsConsistent, IndexOk, CacheOk, RowsTrue;
    assert d.db.failed + {} == d.db.failed;
    JobClaimed(d.db.featurevectors, d.db.open, d.db.done, d.db.failed, d.db.distanceTypes, job);
    NotFailed(d.db.featurevectors, d.db.open, d.db.done, d.db.failed, d.db.distanceTypes, job);
    TrueRows(d.db.files, d.db.distance, d.metric, d.topK, d.db.met);
    claimed := d.ClaimTask(job);
    if claimed {
      d.ChangeKind(job.kind);
      d.FetchCurrent(job.track, d.db.met);
    }
  }

  lemma NotFailed(fvs: seq<FvRecord>, open: set<Job>, done: seq<Job>, taken: set<Job>, distanceTypes: seq<int>,
                  job: Job)
    requires JobsConsistent(fvs, open, done, taken, distanceTypes) && job in open
    ensures job !in taken
  {
  }

  // ------------------------------------------------------------ lost rows

  /** A row from track t to track c that an answer needs. */
  ghost predicate Needed(files: Files, rows: seq<Row>, kind: Kind, t: int, k: nat, c: int, d: real) {
    TopK(RealLeq, k, Values(files, rows, kind, t) + Repeat(files[c], SixDecimals(d)))
    != TopK(RealLeq, k, Values(files, rows, kind, t))
  }

  /** A track with an empty list keeps the distance at which it is met. */
  lemma EmptyListMet(s: LoopState, kind: Kind, b: int, c: int, d: real, now: Moment, k: nat, committed: seq<Row>)
    requires ListOf(s.cache, b) == [] && k >= 1
    ensures ListOf(Met(s, kind, b, c, d, now, true, k, committed).cache, b) == [d]
  {
  }

  /** The job of track 2 runs and fails. */
  method FailedRun(kind: Kind, metric: Metric) returns (d: Daemon, claimed: bool)
    ensures fresh(d) && fresh(d.db)
    ensures claimed ==>
      && d.db.distance == [] && d.db.queue == [] && d.db.done == [Job(kind, 1)] && 3 in d.db.files
      && d.topK == 1 && d.metric == metric && d.initialRun && ListOf(d.topDs, 1) == [metric(kind, 2, 1)]
  {
    hide IndexOk, JobsConsistent, CacheOk, Vectors, Daemon.HaveVectors, Daemon.MetInJobs, Store.FilesOk;
    d := DaemonOf(kind, metric, 1, [1, 2, 3]);
    claimed := Begin(d, Job(kind, 2));
    if claimed {
      SecondJobFails(d, kind);
    }
  }

  /** With k = 1, the job of track 2 meets track 1 at distance 3 and fails.  In the job of track 3 the
      distance 5 is then refused, although nothing is recorded for track 1. */
  method RolledBackJobHidesRow(kind: Kind) returns (d: Daemon, claimed: bool)
    ensures claimed ==>
      && d.db.queue == [] && Job(kind, 1) in d.db.done && d.metric(kind, 3, 1) == 5.0
      && Needed(d.db.files, d.db.distance, kind, 1, d.topK, 3, 5.0)
  {
    hide Needed;
    var metric: Metric := (kd, a, b) => if a == 2 then 3.0 else 5.0;
    d, claimed := FailedRun(kind, metric);
    if claimed {
      IsRefused(d, kind, 1, 3, 5.0);
      NeededFromEmpty(d.db.files, kind, 1, 3, 5.0);
    }
  }

  /** A full list that ends at or below the distance refuses the row. */
  method IsRefused(d: Daemon, kind: Kind, b: int, c: int, distance: Distance)
    requires d.initialRun && d.topK >= 1 && Skipped(ListOf(d.topDs, b), d.topK, distance)
    modifies d`topDs, d`safeRemovable, d`fvBuffer, d.db`queue
    ensures d.db.queue == old(d.db.queue)
  {
    hide Values, TopK, Offered;
    d.GetFeatureVector(kind, b);
    d.DecideReverseRow(kind, b, c, distance);
  }

  method SecondJobFails(d: Daemon, kind: Kind)
    requires d.TablesOk({Job(kind, 2)}) && d.Sound() && d.LastKind() == kind && d.initialRun && !d.bulk
    requires d.topK == 1 && d.db.queue == [] && d.db.distance == [] && ListOf(d.topDs, 1) == []
    requires d.db.featurevectors == Vectors(kind.fvt, [1, 2, 3]) && Distinct(d.db.featurevectors)
    modifies d, d.db
    ensures d.db.distance == [] && d.db.queue == [] && d.db.done == old(d.db.done) && old(d.db.files) <= d.db.files
    ensures ListOf(d.topDs, 1) == [d.metric(kind, 2, 1)]
  {
    hide IndexOk, JobsConsistent, CacheOk, Recorded, CanMeet, MetAll, Growing, LowerTracks, Below, Daemon.HaveVectors,
      Daemon.MetInJobs, Store.FilesOk, AllSorted, KeepsDropped;
    d.ChooseTracks(Job(kind, 2));
    LowerOfVectors(kind.fvt, [1, 2, 3], 2);
    BelowTwo();
    assert [1][..1] == [1];
    ghost var start := d.State();
    d.ChosenCanMeet(Job(kind, 2));
    ghost var moments := d.StopInLoop(kind, 2, 1, false, false);
    OneTrackMet(start, d.metric, kind, 2, moments, 1, []);
    d.FailTask(Job(kind, 2));
  }

  lemma OneTrackMet(s: LoopState, metric: Metric, kind: Kind, c: int, moments: seq<Moment>, k: nat, committed: seq<Row>)
    requires |moments| == 1 && ListOf(s.cache, 1) == [] && k >= 1
    ensures ListOf(MetAll(s, metric, kind, [1], c, moments, true, k, committed).cache, 1) == [metric(kind, c, 1)]
  {
    hide Met;
    assert [1][..0] == [];
    EmptyListMet(s, kind, 1, c, metric(kind, c, 1), moments[0], k, committed);
  }

  lemma NeededFromEmpty(files: Files, kind: Kind, t: int, c: int, d: real)
    requires c in files
    ensures Needed(files, [], kind, t, 1, c, d)
  {
    RealOrder();
    CopiesIgnoredIff(1, [], SixDecimals(d), files[c]);
  }

  // ------------------------------------------------------------ a lower track that comes late

  function LateMetric(): Metric {
    (kind, a, b) => if a == 3 then 5.0 else if a == 2 then 3.0 else 4.0
  }

  /** Track 2 arrives beside the claimed job of track 3. */
  method LateTrack(d: Daemon, kind: Kind)
    requires d.TablesOk({Job(kind, 3)}) && d.Sound() && d.db.distanceTypes == [kind.dist]
    requires d.db.featurevectors == Vectors(kind.fvt, [1, 3, 4])
    modifies d.db`files, d.db`featurevectors, d.db`open
    ensures d.TablesOk({Job(kind, 3)}) && d.Sound() && d.db.open == old(d.db.open) + {Job(kind, 2)}
    ensures d.db.featurevectors == Vectors(kind.fvt, [1, 3, 4, 2])
  {
    hide IndexOk, JobsConsistent, CacheOk, Daemon.HaveVectors, Daemon.MetInJobs, Store.FilesOk;
    LateVector(kind.fvt, d.db.featurevectors, d.vTracks, d.vTracksFvt);
    IndexWithFile(d.db.files, d.db.distance, d.metric, d.topK, d.db.met, 2);
    CacheWithFile(d.db.files, d.topDs, d.db.distance, d.LastKind(), 2);
    TrackArrives(d.db, kind, 2, {Job(kind, 3)});
  }

  lemma LateVector(fvt: int, fvs: seq<FvRecord>, ts: seq<int>, tsFvt: int)
    requires fvs == Vectors(fvt, [1, 3, 4]) && Daemon.HaveVectors(ts, tsFvt, fvs)
    ensures FvRecord(fvt, 2) !in fvs && fvs + [FvRecord(fvt, 2)] == Vectors(fvt, [1, 3, 4, 2])
    ensures Daemon.HaveVectors(ts, tsFvt, fvs + [FvRecord(fvt, 2)])
  {
  }

  method ThirdJob(d: Daemon, kind: Kind)
    requires d.TablesOk({Job(kind, 3)}) && d.Sound() && d.LastKind() == kind && d.initialRun && !d.bulk
    requires d.topK == 2 && d.metric == LateMetric() && d.db.queue == [] && d.db.met == []
    requires ListOf(d.topDs, 2) == ListOf(d.topDs, 3) == []
    requires d.db.featurevectors == Vectors(kind.fvt, [1, 3, 4, 2])
    modifies d, d.db
    ensures d.TablesOk({}) && d.Sound() && d.LastKind() == kind && !d.bulk && d.db.queue == []
    ensures d.db.met == [Meeting(kind, 3, 1), Meeting(kind, 3, 2)] && d.db.done == old(d.db.done) + [Job(kind, 3)]
    ensures d.db.featurevectors == old(d.db.featurevectors) && d.db.open == old(d.db.open)
    ensures ListOf(d.topDs, 2) == [5.0]
  {
    hide IndexOk, JobsConsistent, CacheOk, MetAll, Growing, LowerTracks, Below, Daemon.HaveVectors, Daemon.MetInJobs,
      Store.FilesOk, Sorted, TopK;
    LowerOfVectors(kind.fvt, [1, 3, 4, 2], 3);
    BelowTwo();
    d.ChooseTracks(Job(kind, 3));
    ghost var start, committed := d.State(), d.db.distance;
    ghost var moments := d.RunTask(Job(kind, 3));
    FirstsSorted(d.metric, kind, 3, [1, 2], 2);
    TwoTracksMet(start, d.metric, kind, 3, moments, 2, committed);
  }

  lemma TwoTracksMet(s: LoopState, metric: Metric, kind: Kind, c: int, moments: seq<Moment>, k: nat,
                     committed: seq<Row>)
    requires |moments| == 2 && ListOf(s.cache, 2) == [] && k >= 1
    ensures ListOf(MetAll(s, metric, kind, [1, 2], c, moments, true, k, committed).cache, 2) == [metric(kind, c, 2)]
  {
    hide Met;
    var m, n := moments[0], moments[1];
    assert MetAll(s, metric, kind, [], c, [], true, k, committed) == s;
    assert [] + [1] == [1] && [1] + [2] == [1, 2] && [] + [m] == [m] && moments == [m] + [n];
    MetAllStep(s, metric, kind, [], 1, c, [], m, true, k, committed);
    MetAllStep(s, metric, kind, [1], 2, c, [m], n, true, k, committed);
    OtherListStays(s, kind, 1, c, metric(kind, c, 1), m, true, k, committed, 2);
    EmptyListMet(Met(s, kind, 1, c, metric(kind, c, 1), m, true, k, committed), kind, 2, c, metric(kind, c, 2), n, k,
                 committed);
  }

  method SecondJob(d: Daemon, kind: Kind)
    requires d.TablesOk({Job(kind, 2)}) && d.Sound() && d.LastKind() == kind && d.initialRun && !d.bulk
    requires d.topK == 2 && d.metric == LateMetric() && d.db.queue == []
    requires d.db.met == [Meeting(kind, 3, 1), Meeting(kind, 3, 2)] && ListOf(d.topDs, 2) == [5.0]
    requires d.db.featurevectors == Vectors(kind.fvt, [1, 3, 4, 2])
    modifies d, d.db
    ensures d.TablesOk({}) && d.db.queue == []
    ensures d.db.met == [Meeting(kind, 3, 1), Meeting(kind, 3, 2), Meeting(kind, 2, 1)]
    ensures d.db.done == old(d.db.done) + [Job(kind, 2)]
    ensures ListOf(d.topDs, 2) == [5.0, 3.0]
  {
    hide IndexOk, JobsConsistent, CacheOk, MetAll, Growing, LowerTracks, Below, Daemon.HaveVectors, Daemon.MetInJobs,
      Store.FilesOk, Sorted, TopK;
    LowerOfVectors(kind.fvt, [1, 3, 4, 2], 2);
    BelowTwo();
    d.ChooseTracks(Job(kind, 2));
    ghost var start, committed := d.State(), d.db.distance;
    ghost var moments := d.RunTask(Job(kind, 2));
    OwnListStays(start, d.metric, kind, [1], 2, moments, true, 2, committed);
    OneFirst(d.metric, kind);
  }

  method LateArrival(kind: Kind) returns (d: Daemon, happened: bool)
    ensures fresh(d) && fresh(d.db)
    ensures happened ==>
      && d.TablesOk({}) && d.Sound() && d.LastKind() == kind && d.initialRun && !d.bulk && d.db.queue == []
      && d.topK == 2 && d.metric == LateMetric() && Job(kind, 2) in d.db.open
      && d.db.met == [Meeting(kind, 3, 1), Meeting(kind, 3, 2)] && d.db.done == [Job(kind, 1), Job(kind, 3)]
      && d.db.featurevectors == Vectors(kind.fvt, [1, 3, 4, 2]) && ListOf(d.topDs, 2) == [5.0]
  {
    hide IndexOk, JobsConsistent, CacheOk, Daemon.HaveVectors, Daemon.MetInJobs, Store.FilesOk, Vectors;
    d := DaemonOf(kind, LateMetric(), 2, [1, 3, 4]);
    happened := Begin(d, Job(kind, 3));
    if happened {
      LateTrack(d, kind);
      assert d.db.done == [Job(kind, 1)];
      ThirdJob(d, kind);
    }
  }

  /** Both jobs run. */
  method LateRun(kind: Kind) returns (d: Daemon, happened: bool)
    ensures fresh(d) && fresh(d.db)
    ensures happened ==>
      && d.TablesOk({}) && d.db.queue == [] && d.topK == 2 && d.metric == LateMetric()
      && d.db.met == [Meeting(kind, 3, 1), Meeting(kind, 3, 2), Meeting(kind, 2, 1)] && d.initialRun
      && d.db.done == [Job(kind, 1), Job(kind, 3), Job(kind, 2)] && ListOf(d.topDs, 2) == [5.0, 3.0]
  {
    hide IndexOk, JobsConsistent, CacheOk, Daemon.HaveVectors, Daemon.MetInJobs, Store.FilesOk, Vectors;
    d, happened := LateArrival(kind);
    if happened {
      happened := Begin(d, Job(kind, 2));
      if happened {
        SecondJob(d, kind);
      }
    }
  }

  /** With k = 2, track 2 arrives when the job of track 3 has been chosen already, and they meet at
      distance 5.  The job of track 2 pushes its distance 3 to track 1 behind the 5, and the distance
      4 from track 4 is then refused, although the nearest of track 2 are at 3 and 4.  It happens in
      every such run in which nobody stores a file meanwhile. */
  method LateTrackHidesRow(kind: Kind) returns (d: Daemon, happened: bool)
    ensures happened ==>
      && d.db.queue == [] && d.db.done == [Job(kind, 1), Job(kind, 3), Job(kind, 2)] && d.metric(kind, 4, 2) == 4.0
      && Needed(d.db.files, d.db.distance, kind, 2, d.topK, 4, 4.0)
  {
    hide IndexOk, JobsConsistent, Needed, Daemon.HaveVectors, Daemon.MetInJobs, Store.FilesOk, TopK;
    d, happened := LateRun(kind);
    if happened {
      IsRefused(d, kind, 2, 4, 4.0);
      happened := d.db.files == multiset{1, 2, 3, 4};
      if happened {
        NeededByLate(d.db.files, d.db.distance, kind, d.db.met);
      }
    }
  }

  lemma OneFirst(metric: Metric, kind: Kind)
    ensures TopK(NeighbourLeq, 2, Candidates(metric, kind, 2, [1])) == [Neighbour(metric(kind, 2, 1), 1, -1)]
  {
    var n := Neighbour(metric(kind, 2, 1), 1, -1);
    assert Candidates(metric, kind, 2, [1]) == [n] && [n][..0] == [];
    assert Sort(NeighbourLeq, [n]) == [n];
  }

  /** The table holds 3 and 5 for track 2, where 3 and 4 would be right. */
  lemma NeededByLate(files: Files, rows: seq<Row>, kind: Kind, met: seq<Meeting>)
    requires met == [Meeting(kind, 3, 1), Meeting(kind, 3, 2), Meeting(kind, 2, 1)] && files == multiset{1, 2, 3, 4}
    requires IndexOk(files, rows, LateMetric(), 2, met)
    ensures Needed(files, rows, kind, 2, 2, 4, 4.0)
  {
    var recorded := Values(files, rows, kind, 2);
    assert TopK(RealLeq, 2, recorded) == [3.0, 5.0] by {
      assert TopK(RealLeq, 2, recorded) == TopK(RealLeq, 2, TrueValues(files, LateMetric(), kind, met, 2));
      LateValues(files, kind, met);
    }
    hide Values, IndexOk, TopK, Sort;
    RoundInteger(4000000);
    assert SixDecimals(4.0) == 4.0;
    hide SixDecimals;
    RealOrder();
    FirstsOfSort(recorded);
    CopiesIgnoredIff(2, recorded, 4.0, 1);
  }

  lemma FirstsOfSort(s: seq<real>)
    requires |TopK(RealLeq, 2, s)| == 2
    ensures |Sort(RealLeq, s)| >= 2 && Sort(RealLeq, s)[1] == TopK(RealLeq, 2, s)[1]
  {
  }

  lemma LateValues(files: Files, kind: Kind, met: seq<Meeting>)
    requires met == [Meeting(kind, 3, 1), Meeting(kind, 3, 2), Meeting(kind, 2, 1)] && files == multiset{1, 2, 3, 4}
    ensures TopK(RealLeq, 2, TrueValues(files, LateMetric(), kind, met, 2)) == [3.0, 5.0]
  {
    var m, n, o := Meeting(kind, 3, 1), Meeting(kind, 3, 2), Meeting(kind, 2, 1);
    assert [m, n, o][..2] == [m, n] && [m, n][..1] == [m] && [m][..0] == [];
    assert MetBy([m], kind, 2) == [];
    assert MetBy([m, n], kind, 2) == [3];
    assert MetBy([m, n, o], kind, 2) == [3, 1];
    LateStored(files, kind);
    assert [5.0, 3.0][..1] == [5.0] && [5.0][..0] == [];
    assert Sort(RealLeq, [5.0]) == [5.0];
    assert Sort(RealLeq, [5.0, 3.0]) == [3.0, 5.0];
  }

  lemma LateStored(files: Files, kind: Kind)
    requires files == multiset{1, 2, 3, 4}
    ensures StoredAll(files, LateMetric(), kind, 2, [3, 1]) == [5.0, 3.0]
  {
    RoundInteger(3000000);
    RoundInteger(5000000);
    assert Stored(LateMetric(), kind, 2, 3) == 5.0 && Stored(LateMetric(), kind, 2, 1) == 3.0;
    assert [3] + [1] == [3, 1] && [] + [3] == [3];
    assert StoredAll(files, LateMetric(), kind, 2, []) == [];
    StoredAppend(files, LateMetric(), kind, 2, [], 3);
    StoredAppend(files, LateMetric(), kind, 2, [3], 1);
    assert Repeat(1, 5.0) == [5.0] && Repeat(1, 3.0) == [3.0];
  }
}
