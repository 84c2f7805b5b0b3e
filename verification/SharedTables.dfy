/** The add-file program and the distance daemon see the same two tables, the feature vectors and
    the distance jobs, each in its own terms; the map program gets its jobs from the add-file program. */
module SharedTables {
  import opened Distances
  import opened FileJoin
  import opened Ordering
  import I = Intake
  import B = Bubbles
  import S = Store

  function Record(v: I.FvRow): S.FvRecord {
    S.FvRecord(v.fvtype, v.track)
  }

  function DaemonJob(j: I.DistanceJob): S.Job {
    S.Job(Kind(j.fvtype, j.distanceType), j.track)
  }

  /** The daemon sees each vector, and each job as open, done or taken off without being done. */
  ghost predicate SameTables(fvs: seq<I.FvRow>, jobs: seq<I.DistanceJob>,
                             records: seq<S.FvRecord>, open: set<S.Job>, done: seq<S.Job>, taken: set<S.Job>)
  {
    && records == Map(Record, fvs)
    && forall j :: j in jobs <==> DaemonJob(j) in open || DaemonJob(j) in done || DaemonJob(j) in taken
  }

  lemma RecordOfVector(fvs: seq<I.FvRow>, track: int, fvtype: int)
    ensures S.FvRecord(fvtype, track) in Map(Record, fvs) <==> I.FvRow(track, fvtype) in fvs
  {
    if I.FvRow(track, fvtype) in fvs {
      var i :| 0 <= i < |fvs| && fvs[i] == I.FvRow(track, fvtype);
      assert Map(Record, fvs)[i] == S.FvRecord(fvtype, track);
    }
  }

  /** What the add-file program keeps about its tables is what the daemon relies on, provided no
      job is done twice or has two states. */
  lemma SameConsistency(tracks: map<int, string>, fvs: seq<I.FvRow>, jobs: seq<I.DistanceJob>,
                        records: seq<S.FvRecord>, open: set<S.Job>, done: seq<S.Job>, taken: set<S.Job>,
                        distanceTypes: seq<int>)
    requires I.VectorsOk(tracks, fvs, jobs, distanceTypes)
    requires SameTables(fvs, jobs, records, open, done, taken)
    ensures S.JobsConsistent(records, open, done, taken, distanceTypes)
       <==> Distinct(done) && (forall j :: j in open ==> j !in done && j !in taken)
            && forall j :: j in taken ==> j !in done
  {
    forall track, fvtype {
      RecordOfVector(fvs, track, fvtype);
    }
    forall j: S.Job ensures j in open || j in done || j in taken <==>
      S.FvRecord(j.kind.fvt, j.track) in records && j.kind.dist in distanceTypes
    {
      assert DaemonJob(I.DistanceJob(j.track, j.kind.fvt, j.kind.dist)) == j;
    }
  }

  /** The daemon sees a track in the file table exactly if some file belongs to it. */
  ghost predicate SameFiles(rows: map<int, I.FileRow>, files: Files) {
    forall t :: t in files <==> exists f :: f in rows && rows[f].track == t
  }

  /** What the add-file program keeps about files is what the daemon relies on. */
  lemma TracksHaveFiles(rows: map<int, I.FileRow>, fvs: seq<I.FvRow>, files: Files)
    requires SameFiles(rows, files)
    ensures I.Backed(rows, fvs) <==> forall r :: r in Map(Record, fvs) ==> r.track in files
  {
    forall v | v in fvs ensures Record(v) in Map(Record, fvs) {
      RecordOfVector(fvs, v.track, v.fvtype);
    }
    forall r | r in Map(Record, fvs) ensures I.FvRow(r.track, r.fvt) in fvs {
      RecordOfVector(fvs, r.track, r.fvt);
    }
    if forall r :: r in Map(Record, fvs) ==> r.track in files {
      forall v | v in fvs ensures exists f :: f in rows && rows[f].track == v.track {
        assert Record(v).track in files;
      }
    }
  }

  /** Both models of storing a vector with its jobs do the same to the shared tables. */
  method StoreVector(db: I.Database, store: S.Store, track: int, fvtype: int)
    requires db.TablesOk() && track in db.tracks && I.FvRow(track, fvtype) !in db.fvs
    requires store.JobsOk() && store.distanceTypes == db.distanceTypes
    requires SameTables(db.fvs, db.jobs, store.featurevectors, store.open, store.done, store.failed)
    modifies db`fvs, db`jobs, store`featurevectors, store`open
    ensures db.TablesOk() && store.JobsOk()
    ensures db.fvs == old(db.fvs) + [I.FvRow(track, fvtype)]
    ensures SameTables(db.fvs, db.jobs, store.featurevectors, store.open, store.done, store.failed)
  {
    RecordOfVector(db.fvs, track, fvtype);
    db.StoreVector(track, fvtype);
    store.NothingRunning();
    store.AddFeatureVector(Record(I.FvRow(track, fvtype)), {});
    store.NothingRunning();
  }

  lemma PartIsDistinct(part: seq<int>, all: seq<int>)
    requires Distinct(all) && multiset(part) <= multiset(all)
    ensures Distinct(part)
  {
    forall i, j | 0 <= i < j < |part| ensures part[i] != part[j] {
      if part[i] == part[j] {
        TwiceInMultiset(part, i, j);
        OnceInMultiset(all, part[i]);
      }
    }
  }

  /** The jobs for the map that the add-file program has created may run in any order, each at most
      once: no track is added while it is in a bubble, and all counts stay right. */
  method UpdateMap(db: I.Database, m: B.MapDatabase, jobs: seq<B.Job>)
    requires db.Valid() && m.Consistent() && multiset(B.Adds(jobs)) <= multiset(db.mapJobs.adds)
    requires forall t :: t in db.mapJobs.adds && t in m.tracks ==> m.Unplaced(t)
    modifies m
    ensures m.Consistent()
    ensures forall l :: 1 <= l < m.numberOfLayers ==> B.Evolved(old(m.bubbles)[l], m.bubbles[l])
  {
    PartIsDistinct(B.Adds(jobs), db.mapJobs.adds);
    forall t | t in B.Adds(jobs) ensures t in db.mapJobs.adds {
      assert t in multiset(B.Adds(jobs)) && t in multiset(db.mapJobs.adds);
    }
    B.RunJobs(m, jobs);
  }
}
