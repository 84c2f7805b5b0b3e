/** Whole runs: any mixture of arriving files and feature vectors, rounds of the job loop with jobs that
    fail, daemon restarts and purges.  After each of them the distance table answers every first-k
    query. */
module History {
  import opened Ordering
  import opened Distances
  import opened FileJoin
  import opened Store
  import opened Meetings
  import opened JobOrder
  import opened TopkIndex
  import opened Cache
  import opened Completeness
  import opened Daemon

  /** A query for any page within the first k gets what a table of all met pairs would give. */
  method Ask(db: Store, track: int, kind: Kind, skip: nat, n: nat, ghost metric: Metric, ghost topK: nat)
    returns (nns: seq<Neighbour>)
    requires IndexOk(db.files, db.distance, metric, topK, db.met) && skip + n <= topK
    ensures multiset(nns) <= multiset(JoinFiles(db.files, Neighbours(db.distance, kind, track)))
    ensures Map(NeighbourDistance, nns) == Window(RealLeq, skip, n, TrueValues(db.files, metric, kind, db.met, track))
  {
    nns := db.QueryNn(track, kind, Everything, skip, n);
    WindowWithin(RealLeq, skip, n, topK, Values(db.files, db.distance, kind, track),
                 TrueValues(db.files, metric, kind, db.met, track));
  }

  /** A query for a page of a collection gets what a table of all met pairs would give, if everything
      is recorded or the page ends at or below the k-th distance over all files. */
  method AskCollection(db: Store, track: int, kind: Kind, within: Files, skip: nat, n: nat, ghost metric: Metric,
                       ghost topK: nat)
    returns (nns: seq<Neighbour>)
    requires IndexOk(db.files, db.distance, metric, topK, db.met) && topK >= 1
    ensures multiset(nns) <= multiset(JoinFiles(within, Neighbours(db.distance, kind, track)))
    ensures Answerable(TopK(RealLeq, topK, Values(db.files, db.distance, kind, track)), topK,
                       Values(within, db.distance, kind, track), skip + n) ==>
      Map(NeighbourDistance, nns) == Window(RealLeq, skip, n, TrueValues(within, metric, kind, db.met, track))
  {
    hide IndexOk, Answerable;
    nns := db.QueryNn(track, kind, Collection(within), skip, n);
    if Answerable(TopK(RealLeq, topK, Values(db.files, db.distance, kind, track)), topK,
                  Values(within, db.distance, kind, track), skip + n) {
      CollectionAnswer(db.files, within, db.distance, metric, topK, db.met, kind, track, skip + n);
      WindowWithin(RealLeq, skip, n, skip + n, Values(within, db.distance, kind, track),
                   TrueValues(within, metric, kind, db.met, track));
    }
  }

  // ------------------------------------------------------------------ arrivals in order

  /** Feature vectors arrive in increasing track order, type by type. */
  ghost predicate ArrivedInOrder(fvs: seq<FvRecord>) {
    forall i, j :: 0 <= i < j < |fvs| && fvs[i].fvt == fvs[j].fvt ==> fvs[i].track < fvs[j].track
  }

  /** Jobs are processed in increasing track order, kind by kind. */
  ghost predicate ProcessedInOrder(open: set<Job>, done: seq<Job>) {
    && (forall kind :: Increasing(Tracks(done, kind)))
    && (forall j, j' :: j in done && j' in open && j.kind == j'.kind ==> j.track < j'.track)
  }

  lemma NextInOrder(open: set<Job>, done: seq<Job>, job: Job)
    requires ProcessedInOrder(open, done) && FirstOfKind(job, open)
    ensures ProcessedInOrder(open - {job}, done + [job])
  {
    forall kind ensures Increasing(Tracks(done + [job], kind)) {
      TracksAppend(done, job, kind);
      TracksMembers(done, kind);
      forall i | 0 <= i < |Tracks(done, kind)| && job.kind == kind ensures Tracks(done, kind)[i] < job.track {
        assert Tracks(done, kind)[i] in Tracks(done, kind);
      }
    }
    forall j | j in open - {job} && j.kind == job.kind ensures job.track < j.track {
      assert job.track <= j.track && j != job;
    }
  }

  /** A chosen job that was not claimed, or that failed, leaves the order as it was. */
  lemma PutBack(open: set<Job>, done: seq<Job>, job: Job)
    requires ProcessedInOrder(open - {job}, done + [job])
    ensures ProcessedInOrder(open, done)
  {
    forall kind ensures Increasing(Tracks(done, kind)) {
      TracksAppend(done, job, kind);
      var ts, ts' := Tracks(done, kind), Tracks(done + [job], kind);
      assert Increasing(ts') && forall i :: 0 <= i < |ts| ==> ts'[i] == ts[i];
    }
    forall j, j' | j in done && j' in open && j.kind == j'.kind ensures j.track < j'.track {
      assert j in done + [job];
      if j' == job {
        TracksAppend(done, job, job.kind);
        TracksMembers(done, job.kind);
        var ts, ts' := Tracks(done, job.kind), Tracks(done + [job], job.kind);
        assert ts' == ts + [job.track] && Increasing(ts') && j.track in ts;
        var i :| 0 <= i < |ts| && ts[i] == j.track;
        assert ts'[i] < ts'[|ts|];
      }
    }
  }

  predicate Newest(f: FvRecord, fvs: seq<FvRecord>) {
    forall g :: g in fvs && g.fvt == f.fvt ==> g.track < f.track
  }

  lemma NewestInOrder(fvs: seq<FvRecord>, open: set<Job>, done: seq<Job>, f: FvRecord, open': set<Job>)
    requires ArrivedInOrder(fvs) && ProcessedInOrder(open, done) && Newest(f, fvs)
    requires forall j :: j in done ==> FvRecord(j.kind.fvt, j.track) in fvs
    requires forall j :: j in open' ==> j in open || (j.kind.fvt == f.fvt && j.track == f.track)
    ensures ArrivedInOrder(fvs + [f]) && ProcessedInOrder(open', done)
  {
    forall j, j' | j in done && j' in open' && j.kind == j'.kind ensures j.track < j'.track {
      assert FvRecord(j.kind.fvt, j.track) in fvs;
    }
  }

  // ------------------------------------------------------------------ what a run keeps

  ghost predicate OfTypes(fvs: seq<FvRecord>, types: seq<int>) {
    forall f :: f in fvs ==> f.fvt in types
  }

  /** In an ordered run vectors arrive and jobs run in track order.  In a calm run no job fails, and no
      lower track arrives while a job that has been chosen has still to choose its tracks. */
  ghost predicate Orderly(db: Store, ordered: bool, calm: bool, running: seq<Job>, choosing: bool)
    reads db`featurevectors, db`open, db`done, db`failed, db`met
  {
    && (ordered ==> InOrder(db.featurevectors, db.open, db.done, running))
    && (calm ==> AsProcessed(db.met, db.done) && db.failed == {})
    && (calm && choosing ==> forall j :: j in running ==> LowerDone(db.featurevectors, db.done, j))
  }

  ghost predicate InOrder(fvs: seq<FvRecord>, open: set<Job>, done: seq<Job>, running: seq<Job>) {
    ArrivedInOrder(fvs) && ProcessedInOrder(open - (set j | j in running), done + running)
  }

  lemma NothingChosen(open: set<Job>, done: seq<Job>)
    ensures open - (set j | j in []) == open && done + [] == done
  {
  }

  lemma OneChosen(open: set<Job>, job: Job)
    ensures open - (set j | j in [job]) == open - {job}
    ensures job !in open ==> open - {job} == open
  {
    assert forall j :: j in [job] <==> j == job;
  }

  /** The tables and the cache of a daemon, which other programs leave intact. */
  ghost predicate Intact(db: Store, claimed: set<Job>, metric: Metric, topK: nat, topDs: map<int, seq<real>>,
                         kind: Kind)
    reads db
  {
    && db.JobsRunning(claimed) && db.FilesOk()
    && IndexOk(db.files, db.distance, metric, topK, db.met)
    && CacheOk(db.files, topDs, db.distance, kind)
  }

  // ------------------------------------------------------------------ other programs

  /** May this vector arrive in such a run? */
  predicate MayArrive(f: FvRecord, fvs: seq<FvRecord>, ordered: bool, calm: bool, running: seq<Job>, choosing: bool) {
    && f !in fvs
    && (ordered ==> Newest(f, fvs))
    && (calm && choosing ==> forall j :: j in running ==> !(f.fvt == j.kind.fvt && f.track < j.track))
  }

  lemma StillInOrder(fvs: seq<FvRecord>, open: set<Job>, done: seq<Job>, taken: set<Job>, distanceTypes: seq<int>,
                     running: seq<Job>, f: FvRecord, open': set<Job>)
    requires InOrder(fvs, open, done, running) && JobsConsistent(fvs, open, done, taken, distanceTypes)
      && Newest(f, fvs)
    requires forall j :: j in running ==> j in open || j in taken
    requires forall j :: j in open' ==> j in open || (j.kind.fvt == f.fvt && j.track == f.track)
    ensures InOrder(fvs + [f], open', done, running)
  {
    var chosen := set j | j in running;
    forall j | j in done + running ensures FvRecord(j.kind.fvt, j.track) in fvs {
      assert j in done || j in running;
    }
    NewestInOrder(fvs, open - chosen, done + running, f, open' - chosen);
  }

  /** Another program stores a new feature vector of a track with a file, or tries one that exists. */
  method Arrive(db: Store, types: seq<int>, ordered: bool, calm: bool, running: seq<Job>, choosing: bool,
                ghost claimed: set<Job>)
    requires db.JobsRunning(claimed) && db.FilesOk() && OfTypes(db.featurevectors, types)
    requires Orderly(db, ordered, calm, running, choosing) && forall j :: j in running ==> j in db.open || j in claimed
    modifies db`featurevectors, db`open
    ensures db.JobsRunning(claimed) && db.FilesOk() && OfTypes(db.featurevectors, types)
    ensures forall f :: f in old(db.featurevectors) ==> f in db.featurevectors
    ensures old(db.open) <= db.open && Orderly(db, ordered, calm, running, choosing)
  {
    hide JobsConsistent, InOrder, AsProcessed;
    var fvt: int, track: int := *, *;
    var f := FvRecord(fvt, track);
    if track in db.files && fvt in types && MayArrive(f, db.featurevectors, ordered, calm, running, choosing) {
      ghost var fvs, open := db.featurevectors, db.open;
      db.AddFeatureVector(f, claimed);
      if ordered {
        StillInOrder(fvs, open, db.done, db.failed + claimed, db.distanceTypes, running, f, db.open);
      }
    }
  }

  /** Another program stores a file of a track that is known or new. */
  method ArriveFile(db: Store, ghost claimed: set<Job>, ghost metric: Metric, ghost topK: nat,
                    ghost topDs: map<int, seq<real>>, ghost kind: Kind)
    requires Intact(db, claimed, metric, topK, topDs, kind)
    modifies db`files
    ensures Intact(db, claimed, metric, topK, topDs, kind) && old(db.files) <= db.files
  {
    hide IndexOk, CacheOk, JobsConsistent;
    var track: int := *;
    IndexWithFile(db.files, db.distance, metric, topK, db.met, track);
    CacheWithFile(db.files, topDs, db.distance, kind, track);
    db.StoreFile(track);
  }

  /** Any number of files and feature vectors are stored. */
  method Arrivals(db: Store, types: seq<int>, ordered: bool, calm: bool, running: seq<Job>, choosing: bool,
                  ghost claimed: set<Job>, ghost metric: Metric, ghost topK: nat, ghost topDs: map<int, seq<real>>,
                  ghost kind: Kind)
    requires Intact(db, claimed, metric, topK, topDs, kind) && OfTypes(db.featurevectors, types)
    requires Orderly(db, ordered, calm, running, choosing) && forall j :: j in running ==> j in db.open || j in claimed
    modifies db`files, db`featurevectors, db`open
    ensures Intact(db, claimed, metric, topK, topDs, kind) && OfTypes(db.featurevectors, types)
    ensures forall f :: f in old(db.featurevectors) ==> f in db.featurevectors
    ensures old(db.open) <= db.open && old(db.files) <= db.files && Orderly(db, ordered, calm, running, choosing)
  {
    hide JobsConsistent, IndexOk, CacheOk, InOrder, AsProcessed, LowerDone, OfTypes, Store.FilesOk;
    var arrivals: nat := *;
    while arrivals > 0
      invariant Intact(db, claimed, metric, topK, topDs, kind) && OfTypes(db.featurevectors, types)
      invariant forall f :: f in old(db.featurevectors) ==> f in db.featurevectors
      invariant old(db.open) <= db.open && old(db.files) <= db.files && Orderly(db, ordered, calm, running, choosing)
    {
      var isFile: bool := *;
      if isFile {
        ArriveFile(db, claimed, metric, topK, topDs, kind);
      } else {
        Arrive(db, types, ordered, calm, running, choosing, claimed);
      }
      arrivals := arrivals - 1;
    }
  }

  /** The same beside a daemon. */
  method ArrivalsBeside(d: Daemon, types: seq<int>, ordered: bool, calm: bool, running: seq<Job>, choosing: bool,
                        ghost claimed: set<Job>)
    requires d.TablesOk(claimed) && d.Sound() && OfTypes(d.db.featurevectors, types)
    requires Orderly(d.db, ordered, calm, running, choosing)
    requires forall j :: j in running ==> j in d.db.open || j in claimed
    modifies d.db`files, d.db`featurevectors, d.db`open
    ensures d.TablesOk(claimed) && d.Sound() && OfTypes(d.db.featurevectors, types)
    ensures old(d.db.open) <= d.db.open && Orderly(d.db, ordered, calm, running, choosing)
  {
    hide JobsConsistent, IndexOk, CacheOk, OfTypes, Store.FilesOk, Daemon.MetInJobs, InOrder, AsProcessed, LowerDone;
    Arrivals(d.db, types, ordered, calm, running, choosing, claimed, d.metric, d.topK, d.topDs, d.LastKind());
  }

  // ------------------------------------------------------------------ bulk mode

  predicate Allows(filter: Filter, fvt: int) {
    filter.fvTypes == {} || fvt in filter.fvTypes
  }

  /** The filter leaves one feature vector type. */
  predicate OneType(types: seq<int>, filter: Filter) {
    forall s, t :: s in types && t in types && Allows(filter, s) && Allows(filter, t) ==> s == t
  }

  /** Bulk mode is for one type, and so is its frozen list. */
  ghost predicate BulkOk(d: Daemon, types: seq<int>, filter: Filter)
    reads d`bulk, d`vTracks, d`vTracksFvt
  {
    d.bulk ==> OneType(types, filter) && (d.vTracks != [] ==> Allows(filter, d.vTracksFvt))
  }

  /** The list holds the track of every finished job of the type. */
  ghost predicate Covers(ts: seq<int>, fvt: int, done: seq<Job>) {
    forall j :: j in done && j.kind.fvt == fvt ==> j.track in ts
  }

  /** In a calm run a frozen list covers the finished jobs. */
  ghost predicate CalmBulk(d: Daemon)
    reads d`bulk, d`vTracks, d`vTracksFvt, d`indexDropped, d.db`done
  {
    d.bulk && d.vTracks != [] ==> d.indexDropped && Covers(d.vTracks, d.vTracksFvt, d.db.done)
  }

  /** While a job runs, it also has the track of the job. */
  ghost predicate CalmJob(d: Daemon, job: Job)
    reads d`bulk, d`vTracks, d`vTracksFvt, d.db`done
  {
    d.bulk && d.vTracks != [] ==> Covers(d.vTracks, d.vTracksFvt, d.db.done) && job.track in d.vTracks
  }

  /** The frozen list is of the job's type. */
  lemma ListOfJobType(d: Daemon, types: seq<int>, filter: Filter, job: Job)
    requires d.TracksOk() && OfTypes(d.db.featurevectors, types) && BulkOk(d, types, filter)
    requires FvRecord(job.kind.fvt, job.track) in d.db.featurevectors && Wanted(job, filter)
    ensures d.bulk && d.vTracks != [] ==> d.vTracksFvt == job.kind.fvt
  {
    if d.bulk && d.vTracks != [] {
      assert FvRecord(d.vTracksFvt, d.vTracks[0]) in d.db.featurevectors;
      assert d.vTracksFvt in types && job.kind.fvt in types;
    }
  }

  /** In a calm run a job chooses exactly the lower tracks whose jobs are done. */
  lemma ChosenAreDone(fvs: seq<FvRecord>, done: seq<Job>, job: Job, bulk: bool, before: seq<int>, ts: seq<int>)
    requires LowerDone(fvs, done, job) && FvRecord(job.kind.fvt, job.track) in fvs
    requires forall j :: j in done ==> FvRecord(j.kind.fvt, j.track) in fvs
    requires bulk && before != [] ==>
      Covers(before, job.kind.fvt, done) && job.track in before
      && forall t :: t in before ==> FvRecord(job.kind.fvt, t) in fvs
    requires ts == if !bulk then LowerTracks(fvs, job.kind.fvt, job.track)
                   else if before == [] then AllTracks(fvs, job.kind.fvt)
                   else before
    ensures MetLowerDone(done, job.kind, job.track, Below(ts, job.track))
    ensures bulk ==> Covers(ts, job.kind.fvt, done) && job.track in ts
  {
    TrackLists(fvs, job.kind.fvt, job.track);
    if bulk {
      FrozenTracks(fvs, done, job, ts);
    } else {
      FreshTracksIff(fvs, done, job);
    }
  }

  /** The cached list of a track that nobody has met is empty. */
  lemma OwnListEmpty(files: Files, topDs: map<int, seq<real>>, rows: seq<Row>, metric: Metric, k: nat,
                     met: seq<Meeting>, done: seq<Job>, kind: Kind, c: int)
    requires IndexOk(files, rows, metric, k, met) && AsProcessed(met, done) && Job(kind, c) !in done
    requires CacheOk(files, topDs, rows, kind)
    ensures ListOf(topDs, c) == []
  {
    NotMetBefore(met, done, kind, c);
    NoRowsOfUnmet(files, rows, metric, met, kind, c);
    if c in topDs {
      SubMultisetSize(multiset(Map(SixDecimals, topDs[c])), multiset(Values(files, rows, kind, c)));
    }
  }

  // ------------------------------------------------------------------ the daemon at work

  /** A daemon between two jobs; in a calm run its cache is sound. */
  ghost predicate Working(d: Daemon, types: seq<int>, filter: Filter, ordered: bool, calm: bool)
    reads d, d.db
  {
    && d.TablesOk({}) && d.db.queue == [] && OfTypes(d.db.featurevectors, types) && BulkOk(d, types, filter)
    && Orderly(d.db, ordered, calm, [], false) && (calm ==> CalmBulk(d) && d.Sound())
  }

  lemma JobChosen(db: Store, ordered: bool, calm: bool, job: Job, filter: Filter)
    requires db.JobsRunning({}) && IsFirst(job, db.open, filter) && Orderly(db, ordered, calm, [], false)
    ensures Orderly(db, ordered, calm, [job], true)
    ensures job in db.open && Wanted(job, filter) && FvRecord(job.kind.fvt, job.track) in db.featurevectors
  {
    hide AsProcessed, LowerDone, ProcessedInOrder, ArrivedInOrder;
    assert db.failed + {} == db.failed;
    FirstIsFirstOfKind(job, db.open, filter);
    NothingChosen(db.open, db.done);
    OneChosen(db.open, job);
    if ordered {
      NextInOrder(db.open, db.done, job);
    }
    if calm {
      LowerTracksAreDone(db.featurevectors, db.open, db.done, db.distanceTypes, job);
    }
  }

  /** A chosen job is not run, or it has failed. */
  lemma JobLeft(db: Store, ordered: bool, calm: bool, job: Job, choosing: bool)
    requires Orderly(db, ordered, calm, [job], choosing)
    ensures Orderly(db, ordered, calm, [], false)
  {
    hide AsProcessed, ProcessedInOrder, ArrivedInOrder;
    NothingChosen(db.open, db.done);
    OneChosen(db.open, job);
    if ordered {
      PutBack(db.open, db.done, job);
    }
  }

  /** A chosen job is claimed. */
  lemma JobTaken(db: Store, job: Job)
    requires db.JobsRunning({}) && job in db.open
    ensures job !in db.failed
    ensures JobsConsistent(db.featurevectors, db.open - {job}, db.done, db.failed + {job}, db.distanceTypes)
    ensures InOrder(db.featurevectors, db.open, db.done, [job]) ==>
      InOrder(db.featurevectors, db.open - {job}, db.done, [job])
  {
    OneChosen(db.open, job);
    OneChosen(db.open - {job}, job);
    assert db.failed + {} == db.failed;
    JobClaimed(db.featurevectors, db.open, db.done, db.failed, db.distanceTypes, job);
  }

  lemma ClaimedJob(fvs: seq<FvRecord>, open: set<Job>, done: seq<Job>, taken: set<Job>, distanceTypes: seq<int>,
                   job: Job)
    requires JobsConsistent(fvs, open, done, taken, distanceTypes) && job in taken
    ensures Distinct(fvs) && FvRecord(job.kind.fvt, job.track) in fvs && job !in done && job !in open
    ensures forall j :: j in done ==> FvRecord(j.kind.fvt, j.track) in fvs
  {
  }

  /** One round of the daemon's main loop, ended by an empty job list, a task limit, a signal, or a
      cache that is not sound; other programs may store any number of files and feature vectors
      before and during each job. */
  method MainLoopRound(d: Daemon, types: seq<int>, filter: Filter, ordered: bool, calm: bool) returns (sound: bool)
    requires Working(d, types, filter, ordered, calm) && d.Sound()
    modifies d, d.db
    ensures Working(d, types, filter, ordered, calm) && sound == d.Sound() && (calm ==> sound)
  {
    hide JobsConsistent, IndexOk, CacheOk, OfTypes, Store.FilesOk, Daemon.MetInJobs, InOrder, AsProcessed, OneType;
    sound := true;
    d.BeginRound();
    if d.bulk && |d.db.distance| != 0 {
      return;
    }
    var tasks: nat := *;
    var vacancy := true;
    while vacancy && tasks > 0 && sound
      invariant Working(d, types, filter, ordered, calm) && sound == d.Sound()
      decreases tasks
    {
      ArrivalsBeside(d, types, ordered, calm, [], false, {});
      vacancy := ProcessNext(d, types, filter, ordered, calm);
      sound := d.Sound();
      tasks := tasks - 1;
    }
    d.FinishBulkMode();
  }

  /** The first open job that passes the filters is chosen, claimed and run. */
  method ProcessNext(d: Daemon, types: seq<int>, filter: Filter, ordered: bool, calm: bool) returns (vacancy: bool)
    requires Working(d, types, filter, ordered, calm) && d.Sound()
    modifies d, d.db
    ensures Working(d, types, filter, ordered, calm)
    ensures !vacancy ==> forall j :: j in d.db.open ==> !Wanted(j, filter)
  {
    hide JobsConsistent, IndexOk, CacheOk, OfTypes, Store.FilesOk, Daemon.MetInJobs, Daemon.HaveVectors, InOrder,
      AsProcessed, OneType, IsFirst, LowerDone, Covers;
    var job;
    vacancy, job := d.db.GetOpenTask(filter);
    if vacancy {
      JobChosen(d.db, ordered, calm, job, filter);
      ListOfJobType(d, types, filter, job);
      d.CheckBulkMode(job);
      ArrivalsBeside(d, types, ordered, calm, [job], true, {});
      JobTaken(d.db, job);
      var claimed := d.ClaimTask(job);
      if claimed {
        RunJob(d, types, ordered, calm, job);
      } else {
        JobLeft(d.db, ordered, calm, job, true);
      }
    }
  }

  /** The tracks are chosen; in a calm run they are the lower ones whose jobs are done. */
  method Choose(d: Daemon, ordered: bool, calm: bool, job: Job)
    requires d.TablesOk({job}) && Orderly(d.db, ordered, calm, [job], true) && (calm ==> CalmJob(d, job))
    requires d.bulk && d.vTracks != [] ==> d.vTracksFvt == job.kind.fvt
    modifies d`vTracks, d`vTracksFvt
    ensures d.TablesOk({job}) && Orderly(d.db, ordered, calm, [job], false) && d.vTracksFvt == job.kind.fvt
    ensures calm ==>
      CalmJob(d, job) && MetLowerDone(d.db.done, job.kind, job.track, Below(d.vTracks, job.track))
  {
    hide JobsConsistent, IndexOk, Store.FilesOk, Daemon.MetInJobs, InOrder, AsProcessed, LowerDone, Covers,
      MetLowerDone, Below, LowerTracks, AllTracks;
    ghost var before := d.vTracks;
    ClaimedJob(d.db.featurevectors, d.db.open, d.db.done, d.db.failed + {job}, d.db.distanceTypes, job);
    d.ChooseTracks(job);
    if calm {
      assert LowerDone(d.db.featurevectors, d.db.done, job) by {
        assert job in [job];
      }
      ChosenAreDone(d.db.featurevectors, d.db.done, job, d.bulk, before, d.vTracks);
    }
  }

  /** The job succeeds. */
  method Succeed(d: Daemon, ordered: bool, calm: bool, job: Job)
    requires d.TablesOk({job}) && d.Sound() && d.db.queue == [] && Orderly(d.db, ordered, calm, [job], false)
    requires d.LastKind() == job.kind && d.vTracksFvt == job.kind.fvt
    requires calm ==> CalmJob(d, job) && MetLowerDone(d.db.done, job.kind, job.track, Below(d.vTracks, job.track))
    modifies d, d.db
    ensures d.TablesOk({}) && d.db.queue == [] && Orderly(d.db, ordered, calm, [], false)
    ensures d.vTracksFvt == job.kind.fvt && (d.bulk ==> old(d.bulk)) && d.db.featurevectors == old(d.db.featurevectors)
    ensures calm ==> CalmBulk(d) && d.Sound()
  {
    hide JobsConsistent, IndexOk, CacheOk, Store.FilesOk, Daemon.MetInJobs, Daemon.HaveVectors, InOrder, AsProcessed,
      MetLowerDone, Covers, Below, Growing, Calculated, Sorted, TopK, Printed;
    ClaimedJob(d.db.featurevectors, d.db.open, d.db.done, d.db.failed + {job}, d.db.distanceTypes, job);
    ghost var seen := Below(d.vTracks, job.track);
    ChosenOk(d.vTracks, d.vTracksFvt, d.db.featurevectors, job.track);
    if ordered {
      JobInOrder(d.db.featurevectors, d.db.open, d.db.done, job);
    }
    if calm {
      AsProcessedAfterJobIff(d.db.met, d.db.done, job.kind, job.track, seen);
      OwnListEmpty(d.db.files, d.topDs, d.db.distance, d.metric, d.topK, d.db.met, d.db.done, job.kind, job.track);
      FirstsSorted(d.metric, job.kind, job.track, seen, d.topK);
      CoversMore(d.vTracks, d.vTracksFvt, d.db.done, job);
    }
    ghost var moments := d.RunTask(job);
  }

  lemma ChosenOk(ts: seq<int>, fvt: int, fvs: seq<FvRecord>, c: int)
    requires Daemon.HaveVectors(ts, fvt, fvs)
    ensures Distinct(Below(ts, c)) && forall b :: b in Below(ts, c) ==> b < c
  {
    BelowMembers(ts, c);
  }

  lemma JobInOrder(fvs: seq<FvRecord>, open: set<Job>, done: seq<Job>, job: Job)
    requires InOrder(fvs, open, done, [job]) && job !in open
    ensures InOrder(fvs, open, done + [job], [])
  {
    OneChosen(open, job);
    NothingChosen(open, done + [job]);
  }

  lemma CoversMore(ts: seq<int>, fvt: int, done: seq<Job>, job: Job)
    ensures Covers(ts, fvt, done) && job.track in ts ==> Covers(ts, fvt, done + [job])
  {
  }

  /** The job fails. */
  method GiveUp(d: Daemon, ordered: bool, job: Job)
    requires d.TablesOk({job}) && Recorded(d.db.files, d.topDs, d.db.AllRows(), d.LastKind())
    requires Orderly(d.db, ordered, false, [job], false)
    modifies d.db`failed, d.db`distance, d.db`queue
    ensures d.TablesOk({}) && d.db.queue == [] && Orderly(d.db, ordered, false, [], false)
  {
    hide JobsConsistent, IndexOk, CacheOk, Store.FilesOk, Daemon.MetInJobs, Daemon.HaveVectors, InOrder, AsProcessed,
      Recorded, AllSorted, KeepsDropped, Printed;
    JobLeft(d.db, ordered, false, job, false);
    d.FailTask(job);
  }

  lemma SoundIsRecorded(d: Daemon)
    requires d.Sound() && d.db.queue == []
    ensures Recorded(d.db.files, d.topDs, d.db.AllRows(), d.LastKind())
  {
    assert d.db.distance + Printed([]) == d.db.distance;
  }

  /** The part of a job before it chooses its tracks: it fetches its own vector. */
  method FetchOwn(d: Daemon, types: seq<int>, ordered: bool, calm: bool, job: Job, stop: nat)
    requires d.TablesOk({job}) && d.Sound() && d.db.queue == [] && OfTypes(d.db.featurevectors, types)
    requires Orderly(d.db, ordered, calm, [job], true)
    modifies d`topDs, d`fvBuffer, d`lastFvt, d`lastDist, d.db`files, d.db`featurevectors, d.db`open
    ensures d.TablesOk({job}) && d.Sound() && OfTypes(d.db.featurevectors, types)
    ensures Orderly(d.db, ordered, calm, [job], true) && d.LastKind() == job.kind
  {
    hide JobsConsistent, IndexOk, CacheOk, OfTypes, Store.FilesOk, Daemon.MetInJobs, Daemon.HaveVectors, InOrder,
      AsProcessed, LowerDone, RowsTrue;
    ArrivalsBeside(d, types, ordered, calm, [job], true, {job});
    d.ChangeKind(job.kind);
    if stop == 0 {
      ListMentioned(d.db.files, d.topDs, d.db.distance, job.kind, job.track);
      d.FetchFails(job.track);
    } else {
      TrueRows(d.db.files, d.db.distance, d.metric, d.topK, d.db.met);
      d.FetchCurrent(job.track, d.db.met);
      ArrivalsBeside(d, types, ordered, calm, [job], true, {job});
    }
  }

  /** A claimed job, with arrivals before it chooses its tracks, afterwards and in its loop.  If the run
      is not calm, it may fail: with its own vector, with the query for its tracks, or later. */
  method RunJob(d: Daemon, types: seq<int>, ordered: bool, calm: bool, job: Job)
    requires d.TablesOk({job}) && d.Sound() && d.db.queue == [] && OfTypes(d.db.featurevectors, types)
    requires Orderly(d.db, ordered, calm, [job], true) && (calm ==> CalmJob(d, job))
    requires d.bulk && d.vTracks != [] ==> d.vTracksFvt == job.kind.fvt
    modifies d, d.db
    ensures d.TablesOk({}) && d.db.queue == [] && OfTypes(d.db.featurevectors, types)
    ensures Orderly(d.db, ordered, calm, [], false) && (calm ==> CalmBulk(d) && d.Sound())
    ensures d.bulk ==> old(d.bulk) && (d.vTracks != [] ==> d.vTracksFvt == job.kind.fvt)
  {
    hide JobsConsistent, IndexOk, CacheOk, OfTypes, Store.FilesOk, Daemon.MetInJobs, Daemon.HaveVectors, InOrder,
      AsProcessed, LowerDone, Covers, Recorded, MetLowerDone, Below;
    var stop: nat := *;
    if calm {
      stop := 3;
    }
    FetchOwn(d, types, ordered, calm, job, stop);
    if stop <= 1 {
      SoundIsRecorded(d);
      GiveUp(d, ordered, job);
    } else {
      Choose(d, ordered, calm, job);
      RunChosen(d, types, ordered, calm, job, stop == 2);
    }
  }

  method RunChosen(d: Daemon, types: seq<int>, ordered: bool, calm: bool, job: Job, failing: bool)
    requires d.TablesOk({job}) && d.Sound() && d.db.queue == [] && OfTypes(d.db.featurevectors, types)
    requires Orderly(d.db, ordered, calm, [job], false) && (failing ==> !calm)
    requires d.LastKind() == job.kind && d.vTracksFvt == job.kind.fvt
    requires calm ==> CalmJob(d, job) && MetLowerDone(d.db.done, job.kind, job.track, Below(d.vTracks, job.track))
    modifies d, d.db
    ensures d.TablesOk({}) && d.db.queue == [] && OfTypes(d.db.featurevectors, types)
    ensures Orderly(d.db, ordered, calm, [], false) && (calm ==> CalmBulk(d) && d.Sound())
    ensures d.vTracksFvt == job.kind.fvt && (d.bulk ==> old(d.bulk))
  {
    hide JobsConsistent, IndexOk, CacheOk, OfTypes, Store.FilesOk, Daemon.MetInJobs, Daemon.HaveVectors, InOrder,
      AsProcessed, Covers, Recorded, MetLowerDone, Below;
    ArrivalsBeside(d, types, ordered, calm, [job], false, {job});
    if failing {
      d.AbandonTask(job);
      GiveUp(d, ordered, job);
    } else {
      Succeed(d, ordered, calm, job);
    }
  }

  // ------------------------------------------------------------------ any run

  /** The store between two events. */
  ghost predicate Kept(db: Store, types: seq<int>, metric: Metric, topK: nat, ordered: bool, calm: bool)
    reads db
  {
    && db.queue == [] && db.JobsOk() && db.FilesOk() && OfTypes(db.featurevectors, types)
    && IndexOk(db.files, db.distance, metric, topK, db.met) && Daemon.MetInJobs(db.met, db.done)
    && Orderly(db, ordered, calm, [], false)
  }

  /** Purging one track, whichever of equal distances remain. */
  method PurgeTrack(db: Store, ghost metric: Metric, topK: nat, kind: Kind, track: int)
    requires IndexOk(db.files, db.distance, metric, topK, db.met)
    modifies db`distance
    ensures IndexOk(db.files, db.distance, metric, topK, db.met)
  {
    ghost var rows := db.distance;
    ghost var sorted := db.PurgeDistanceTable(track, kind, topK);
    PurgedIndex(db.files, rows, db.distance, metric, topK, db.met, kind, track, sorted);
  }

  /** The purge mode: a process of its own that runs over all types and tracks. */
  method Purge(db: Store, metric: Metric, topK: nat, distanceTypes: seq<int>, types: seq<int>, tracks: seq<int>)
    requires IndexOk(db.files, db.distance, metric, topK, db.met)
    modifies db`distance
    ensures IndexOk(db.files, db.distance, metric, topK, db.met)
  {
    hide IndexOk;
    for d := 0 to |distanceTypes|
      invariant IndexOk(db.files, db.distance, metric, topK, db.met)
    {
      for f := 0 to |types|
        invariant IndexOk(db.files, db.distance, metric, topK, db.met)
      {
        for t := 0 to |tracks|
          invariant IndexOk(db.files, db.distance, metric, topK, db.met)
        {
          PurgeTrack(db, metric, topK, Kind(types[f], distanceTypes[d]), tracks[t]);
        }
      }
    }
  }

  /** A process of the daemon, with arrivals of its own; it ends when it is stopped, or when its cache is
      not sound. */
  method DaemonProcess(db: Store, types: seq<int>, topK: nat, metric: Metric, ordered: bool, calm: bool)
    requires topK >= 1 && Kept(db, types, metric, topK, ordered, calm)
    modifies db
    ensures Kept(db, types, metric, topK, ordered, calm)
  {
    hide JobsConsistent, IndexOk, CacheOk, OfTypes, Store.FilesOk, Daemon.MetInJobs, InOrder, AsProcessed, OneType;
    var initialRun: bool, wantsBulk: bool, rounds: nat, filter: Filter := *, *, *, *;
    var d := new Daemon(db, topK, metric, initialRun, wantsBulk && OneType(types, filter));
    var sound := true;
    while rounds > 0 && sound
      invariant fresh(d) && d.db == db && d.topK == topK && d.metric == metric
      invariant Working(d, types, filter, ordered, calm) && (sound ==> d.Sound())
    {
      sound := MainLoopRound(d, types, filter, ordered, calm);
      rounds := rounds - 1;
    }
    db.NothingRunning();
  }

  method AnyEvent(db: Store, distanceTypes: seq<int>, types: seq<int>, topK: nat, metric: Metric, ordered: bool,
                  calm: bool)
    requires topK >= 1 && Kept(db, types, metric, topK, ordered, calm)
    modifies db
    ensures Kept(db, types, metric, topK, ordered, calm)
  {
    hide JobsConsistent, IndexOk, CacheOk, OfTypes, Store.FilesOk, Daemon.MetInJobs, InOrder, AsProcessed;
    var arriving: bool, purging: bool := *, *;
    if arriving {
      EmptyCache(db.files, db.distance, Kind(0, 0));
      db.NothingRunning();
      Arrivals(db, types, ordered, calm, [], false, {}, metric, topK, map[], Kind(0, 0));
      db.NothingRunning();
    } else if purging {
      var tracks: seq<int> := *;
      Purge(db, metric, topK, distanceTypes, types, tracks);
    } else {
      DaemonProcess(db, types, topK, metric, ordered, calm);
    }
  }

  /** Any run from an empty store: files and feature vectors that arrive while no daemon is alive,
      processes of the daemon with arrivals of their own and jobs that fail, and purges.  In a calm run
      the meetings follow from the order of the jobs; when feature vectors also arrive in increasing
      track order, every answer is complete. */
  method AnyHistory(distanceTypes: seq<int>, types: seq<int>, topK: nat, metric: Metric, ordered: bool, calm: bool)
    returns (db: Store)
    requires topK >= 1
    ensures fresh(db) && db.queue == [] && db.JobsOk() && db.FilesOk()
    ensures IndexOk(db.files, db.distance, metric, topK, db.met)
    ensures calm ==> AsProcessed(db.met, db.done) && db.failed == {}
    ensures ordered ==> forall kind :: Increasing(Tracks(db.done, kind))
    ensures ordered && calm ==> AnswersComplete(db.files, db.distance, metric, topK, db.done)
  {
    hide JobsConsistent, IndexOk, OfTypes, AsProcessed, AnswersComplete, Increasing;
    db := new Store(distanceTypes);
    EmptyStore(db.files, metric, topK);
    NothingChosen({}, []);
    var events: nat := *;
    while events > 0
      invariant fresh(db) && Kept(db, types, metric, topK, ordered, calm)
    {
      AnyEvent(db, distanceTypes, types, topK, metric, ordered, calm);
      events := events - 1;
    }
    NothingChosen(db.open, db.done);
    if ordered && calm {
      DistinctDone(db);
      CompleteAnswers(db.files, db.distance, metric, topK, db.met, db.done);
    }
  }

  lemma DistinctDone(db: Store)
    requires db.JobsOk()
    ensures Distinct(db.done)
  {
  }

  lemma EmptyStore(files: Files, metric: Metric, topK: nat)
    ensures IndexOk(files, [], metric, topK, []) && AsProcessed([], [])
    ensures ArrivedInOrder([]) && ProcessedInOrder({}, []) && OfTypes([], []) && Daemon.MetInJobs([], [])
    ensures forall distanceTypes :: JobsConsistent([], {}, [], {}, distanceTypes)
    ensures forall types :: OfTypes([], types)
  {
    forall kind, a ensures Values(files, [], kind, a) == TrueValues(files, metric, kind, [], a) {
    }
  }
}
