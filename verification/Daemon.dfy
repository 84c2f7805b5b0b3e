/** The distance daemon in jobs mode: it takes one open job at a time, computes the
    distances from the job's track to all lower tracks and records the rows that any
    first-k query can need.  Other programs store files and vectors while it works. */
module Daemon {
  import opened Ordering
  import opened Distances
  import opened FileJoin
  import opened Store
  import opened Meetings
  import opened JobOrder
  import opened TopkIndex
  import opened Cache

  class Daemon {
    const db: Store
    const topK: nat
    const metric: Metric
    const initialRun: bool

    var topDs: map<int, seq<real>>
    var safeRemovable: nat
    var fvBuffer: set<int>
    var lastFvt: int
    var lastDist: int
    var bulk: bool
    var indexDropped: bool
    var vTracks: seq<int>
    ghost var vTracksFvt: int

    /** What holds of the tables while some jobs are claimed, whatever the cache holds. */
    ghost predicate TablesOk(claimed: set<Job>)
      reads this, db
    {
      && topK >= 1
      && db.JobsRunning(claimed) && db.FilesOk()
      && IndexOk(db.files, db.distance, metric, topK, db.met) && MetInJobs(db.met, db.done)
      && TracksOk()
    }

    /** Tracks meet in jobs that are done afterwards. */
    static ghost predicate MetInJobs(met: seq<Meeting>, done: seq<Job>) {
      forall m :: m in met ==> Job(m.kind, m.a) in done
    }

    /** The chosen tracks have feature vectors of one type. */
    ghost predicate TracksOk()
      reads this`vTracks, this`vTracksFvt, db`featurevectors
    {
      HaveVectors(vTracks, vTracksFvt, db.featurevectors)
    }

    static ghost predicate HaveVectors(ts: seq<int>, fvt: int, fvs: seq<FvRecord>) {
      Distinct(ts) && forall t :: t in ts ==> FvRecord(fvt, t) in fvs
    }

    /** The cache is sound for the committed rows. */
    predicate Sound()
      reads this`topDs, this`lastFvt, this`lastDist, db`files, db`distance
    {
      CacheOk(db.files, topDs, db.distance, LastKind())
    }

    function LastKind(): Kind
      reads this`lastFvt, this`lastDist
    {
      Kind(lastFvt, lastDist)
    }

    function State(): LoopState
      reads this`topDs, this`safeRemovable, db`queue
    {
      LoopState(topDs, safeRemovable, db.queue)
    }

    /** A new daemon process on the tables as an earlier one left them. */
    constructor (db: Store, topK: nat, metric: Metric, initialRun: bool, bulk: bool)
      requires topK >= 1 && db.JobsOk() && db.FilesOk()
      requires IndexOk(db.files, db.distance, metric, topK, db.met) && MetInJobs(db.met, db.done)
      ensures this.db == db && this.topK == topK && this.metric == metric && this.bulk == bulk
      ensures this.initialRun == (initialRun || bulk)
      ensures topDs == map[] && safeRemovable == topK - 1 && fvBuffer == {} && vTracks == []
      ensures TablesOk({}) && Sound()
    {
      this.db, this.topK, this.metric, this.bulk := db, topK, metric, bulk;
      this.initialRun := initialRun || bulk;
      topDs, safeRemovable, fvBuffer := map[], topK - 1, {};
      lastFvt, lastDist := -1, -1;
      indexDropped, vTracks, vTracksFvt := false, [], 0;
      new;
      db.NothingRunning();
    }

    /** A round of the main loop starts with an empty track list. */
    method BeginRound()
      modifies this`vTracks
      ensures vTracks == []
    {
      vTracks := [];
    }

    /** Fetches a feature vector through the buffer and, as a side effect, may reload
        the cached distances of its track from the committed rows. */
    method GetFeatureVector(kind: Kind, track: int)
      modifies this`topDs, this`fvBuffer
      ensures topDs == Fetched(old(topDs), track, track in old(fvBuffer), initialRun,
                               TopK(RealLeq, topK, Values(db.files, db.distance, kind, track)))
      ensures ListOf(topDs, track) ==
        if !initialRun && (track !in old(fvBuffer) || ListOf(old(topDs), track) == [])
        then TopK(RealLeq, topK, Values(db.files, db.distance, kind, track))
        else ListOf(old(topDs), track)
      ensures forall t :: t != track ==> ListOf(topDs, t) == ListOf(old(topDs), t)
      ensures fvBuffer == old(fvBuffer) || fvBuffer == old(fvBuffer) + {track}
    {
      if track in fvBuffer {
        topDs := topDs[track := ListOf(topDs, track)];
        if |topDs[track]| == 0 && !initialRun {
          Reload(kind, track);
        }
      } else {
        var memoryAvailable: bool := *;
        if memoryAvailable {
          fvBuffer := fvBuffer + {track};
        }
        if !initialRun {
          Reload(kind, track);
        }
      }
    }

    method Reload(kind: Kind, track: int)
      modifies this`topDs
      ensures topDs == old(topDs)[track := TopK(RealLeq, topK, Values(db.files, db.distance, kind, track))]
    {
      var nns := db.QueryNn(track, kind, Everything, 0, topK);
      FirstWindow(RealLeq, topK, Values(db.files, db.distance, kind, track));
      topDs := topDs[track := Map(NeighbourDistance, nns)];
    }

    /** A fetch that fails: the vector may be in memory afterwards, and the list of its track may have
        come into being. */
    method FetchFails(track: int)
      modifies this`topDs, this`fvBuffer
      ensures topDs == old(topDs) || topDs == old(topDs)[track := ListOf(old(topDs), track)]
      ensures fvBuffer == old(fvBuffer) || fvBuffer == old(fvBuffer) + {track}
    {
      var listed: bool, memoryAvailable: bool := *, *;
      if listed {
        topDs := topDs[track := ListOf(topDs, track)];
      }
      if memoryAvailable {
        fvBuffer := fvBuffer + {track};
      }
    }

    /** The reverse row from the older track b to the job's track c: recorded and cached,
        or skipped because at least k values are recorded for b that do not exceed it.  The first
        distance of a track is its list; a sorted list takes a later one in at its place. */
    method DecideReverseRow(kind: Kind, b: int, c: int, d: Distance)
      requires topK >= 1
      modifies this`topDs, this`safeRemovable, db`queue
      ensures State() == Decided(old(State()), kind, b, c, d, topK)
      ensures var list := ListOf(old(topDs), b);
        var full := list != [] && |list| >= topK && list[|list| - 1] <= d;
        && db.queue == old(db.queue) + (if full then [] else [Row(kind, b, c, d)])
        && (full ==> topDs == old(topDs) && safeRemovable == old(safeRemovable))
        && (list == [] ==> topDs == old(topDs)[b := [d]] && safeRemovable == old(safeRemovable))
        && (!full && list != [] && Sorted(RealLeq, list) ==>
              var above, between := d < list[|list| - 1], list[0] <= d < list[|list| - 1];
              var room := old(safeRemovable) + if between then 1 else 0;
              var drops := above && |list| >= topK && room > 0;
              && topDs == old(topDs)[b := TopK(RealLeq, if above && !drops then |list| + 1 else |list|, list + [d])]
              && safeRemovable == room - if drops then 1 else 0)
    {
      hide TopK, Sorted;
      ghost var list := ListOf(topDs, b);
      if list != [] && Sorted(RealLeq, list) && !Skipped(list, topK, d) {
        OfferedIsFirsts(list, safeRemovable, topK, d);
      }
      var present := b in topDs && |topDs[b]| > 0;
      var limit := MAX_DOUBLE;
      if present && |topDs[b]| >= topK {
        limit := topDs[b][|topDs[b]| - 1];
      }
      if d < limit {
        db.InsertDistanceRecord(Row(kind, b, c, d));
        if !present {
          topDs := topDs[b := [d]];
        } else {
          OfferToCache(b, d);
        }
      }
    }

    /** Inserts a recorded distance into the cached list of b and lets the list shrink
        again when it is too long and the counter allows it. */
    method OfferToCache(b: int, d: real)
      requires b in topDs && topDs[b] != []
      modifies this`topDs, this`safeRemovable
      ensures topDs == old(topDs)[b := Offered(old(topDs[b]), old(safeRemovable), topK, d).0]
      ensures safeRemovable == Offered(old(topDs[b]), old(safeRemovable), topK, d).1
    {
      var list := topDs[b];
      var i := 0;
      while i < |list|
        invariant 0 <= i <= |list|
        invariant forall j :: 0 <= j < i ==> list[j] <= d
      {
        if d < list[i] {
          break;
        }
        i := i + 1;
      }
      assert i == FirstAbove(list, d);
      if i < |list| {
        list := list[..i] + [d] + list[i..];
        if i != 0 {
          safeRemovable := safeRemovable + 1;
        }
      }
      if |list| > topK && safeRemovable > 0 {
        list := list[..|list| - 1];
        safeRemovable := safeRemovable - 1;
      }
      topDs := topDs[b := list];
    }

    /** The calculation loop over the first n tracks of vTracks: the distances to the lower ones
        among them, with every reverse row decided.  Files may be stored at any moment. */
    method MeetTracks(kind: Kind, c: int, n: nat) returns (dists: seq<Neighbour>, ghost moments: seq<Moment>)
      requires topK >= 1 && n <= |vTracks|
      modifies this`topDs, this`safeRemovable, this`fvBuffer, db`queue, db`files
      ensures dists == Candidates(metric, kind, c, Below(vTracks[..n], c))
      ensures |moments| == |Below(vTracks[..n], c)| && Growing(old(db.files), moments, db.files)
      ensures old(db.FilesOk()) ==> db.FilesOk()
      ensures State() == MetAll(old(State()), metric, kind, Below(vTracks[..n], c), c, moments, initialRun, topK,
                                db.distance)
    {
      hide Met, MetAll, Below, Growing, Store.FilesOk;
      dists, moments := [], [];
      var i := 0;
      NothingMet(db.files, State(), metric, kind, c, initialRun, topK, db.distance);
      assert vTracks[..0] == [];
      while i < n
        invariant 0 <= i <= n
        invariant |moments| == |Below(vTracks[..i], c)| && Growing(old(db.files), moments, db.files)
        invariant old(db.FilesOk()) ==> db.FilesOk()
        invariant State() == MetAll(old(State()), metric, kind, Below(vTracks[..i], c), c, moments, initialRun, topK,
                                    db.distance)
        invariant dists == Candidates(metric, kind, c, Below(vTracks[..i], c))
      {
        var b := vTracks[i];
        ghost var before := db.files;
        db.StoreFiles();
        GrowingMore(old(db.files), moments, before, db.files);
        ghost var now := Moment(db.files, b in fvBuffer);
        LoopStep(old(State()), metric, kind, vTracks, i, c, old(db.files), moments, now, initialRun, topK, db.distance);
        if c > b {
          var d := MeetTrack(kind, b, c);
          moments := moments + [now];
          dists := dists + [Neighbour(d, b, -1)];
        }
        i := i + 1;
      }
    }

    static lemma NothingMet(files: Files, s: LoopState, metric: Metric, kind: Kind, c: int, initialRun: bool, k: nat,
                            committed: seq<Row>)
      ensures Below([], c) == [] && Growing(files, [], files)
      ensures MetAll(s, metric, kind, [], c, [], initialRun, k, committed) == s
    {
    }

    /** The distance to one lower track, with its reverse row decided. */
    method MeetTrack(kind: Kind, b: int, c: int) returns (d: Distance)
      requires topK >= 1
      modifies this`topDs, this`safeRemovable, this`fvBuffer, db`queue
      ensures d == metric(kind, c, b)
      ensures State() == Met(old(State()), kind, b, c, d, Moment(db.files, b in old(fvBuffer)), initialRun, topK,
                             db.distance)
    {
      hide Fetched, Decided;
      GetFeatureVector(kind, b);
      d := metric(kind, c, b);
      DecideReverseRow(kind, b, c, d);
    }

    /** Distances from track c to all lower tracks of vTracks, sorted; on the way every
        reverse row is decided. */
    method CalcDistsToAllFvs(kind: Kind, c: int) returns (dists: seq<Neighbour>, ghost moments: seq<Moment>)
      requires topK >= 1
      modifies this`topDs, this`safeRemovable, this`fvBuffer, db`queue, db`files
      ensures dists == Sort(NeighbourLeq, Candidates(metric, kind, c, Below(vTracks, c)))
      ensures |moments| == |Below(vTracks, c)| && Growing(old(db.files), moments, db.files)
      ensures old(db.FilesOk()) ==> db.FilesOk()
      ensures State() == MetAll(old(State()), metric, kind, Below(vTracks, c), c, moments, initialRun, topK,
                                db.distance)
    {
      hide MetAll, Growing, Store.FilesOk;
      dists, moments := MeetTracks(kind, c, |vTracks|);
      assert vTracks[..|vTracks|] == vTracks;
      dists := Sort(NeighbourLeq, dists);
    }

    method FinishBulkMode()
      modifies this`bulk, db`indexed
      ensures bulk == (old(bulk) && !indexDropped)
      ensures db.indexed == (old(db.indexed) || (old(bulk) && indexDropped))
    {
      if bulk && indexDropped {
        if !db.indexed {
          db.CreateIndex();
        }
        bulk := false;
      }
    }

    /** The first n entries become forward rows of track c and are pushed behind its cached list. */
    method StoreForwardRows(kind: Kind, c: int, dists: seq<Neighbour>, n: nat)
      modifies this`topDs, db`queue
      ensures db.queue == old(db.queue) + ForwardRows(kind, c, Take(n, dists))
      ensures db.AllRows() == old(db.AllRows()) + Printed(ForwardRows(kind, c, Take(n, dists)))
      ensures topDs == WithForward(old(topDs), c, Take(n, dists))
      ensures ListOf(topDs, c) == ListOf(old(topDs), c) + Map(NeighbourDistance, Take(n, dists))
      ensures forall t :: t != c ==> ListOf(topDs, t) == ListOf(old(topDs), t)
    {
      hide WithForward, Printed, Take;
      var i := 0;
      NoneForward(topDs, c);
      ghost var queue := db.queue;
      while i < n && i < |dists|
        invariant 0 <= i <= n && i <= |dists|
        invariant db.queue == old(db.queue) + ForwardRows(kind, c, dists[..i])
        invariant topDs == WithForward(old(topDs), c, dists[..i])
      {
        ForwardStep(old(topDs), kind, c, dists, i);
        db.InsertDistanceRecord(ForwardRow(kind, c, dists[i]));
        topDs := topDs[c := ListOf(topDs, c) + [dists[i].d]];
        i := i + 1;
      }
      FirstTaken(n, dists, i);
      ForwardLists(old(topDs), c, dists[..i]);
      PrintedConcat(db.distance, queue, ForwardRows(kind, c, dists[..i]));
    }

    static lemma FirstTaken(n: nat, dists: seq<Neighbour>, i: nat)
      requires i <= |dists| && i <= n && (i == n || i == |dists|)
      ensures dists[..i] == Take(n, dists)
    {
    }

    static lemma ForwardLists(cache: map<int, seq<real>>, c: int, nearest: seq<Neighbour>)
      ensures var now := WithForward(cache, c, nearest);
        && ListOf(now, c) == ListOf(cache, c) + Map(NeighbourDistance, nearest)
        && forall t :: t != c ==> ListOf(now, t) == ListOf(cache, t)
    {
    }

    static lemma NoneForward(cache: map<int, seq<real>>, c: int)
      ensures WithForward(cache, c, []) == cache
    {
    }

    static lemma ForwardStep(cache: map<int, seq<real>>, kind: Kind, c: int, dists: seq<Neighbour>, i: nat)
      requires i < |dists|
      ensures ForwardRows(kind, c, dists[..i + 1])
           == ForwardRows(kind, c, dists[..i]) + [ForwardRow(kind, c, dists[i])]
      ensures var now := WithForward(cache, c, dists[..i]);
        WithForward(cache, c, dists[..i + 1]) == now[c := ListOf(now, c) + [dists[i].d]]
    {
      assert dists[..i + 1] == dists[..i] + [dists[i]];
      var list, ds := ListOf(cache, c), Map(NeighbourDistance, dists[..i]);
      var now := WithForward(cache, c, dists[..i]);
      assert Map(NeighbourDistance, dists[..i + 1]) == ds + [dists[i].d];
      assert ListOf(now, c) == list + ds;
      assert list + (ds + [dists[i].d]) == list + ds + [dists[i].d];
      assert now[c := list + ds + [dists[i].d]] == cache[c := list + ds + [dists[i].d]];
    }

    // ------------------------------------------------------------ the steps of a job

    /** A track that is not in the frozen list ends bulk mode, if its index was dropped already. */
    method CheckBulkMode(job: Job)
      modifies this`bulk, db`indexed
      ensures bulk == (old(bulk) && (vTracks == [] || job.track in vTracks || !indexDropped))
      ensures db.indexed == (old(db.indexed) || (old(bulk) && !bulk))
    {
      if bulk && vTracks != [] {
        if job.track !in vTracks {
          FinishBulkMode();
        }
      }
    }

    /** Marks a job as claimed; the update fails when another transaction is in the way. */
    method ClaimTask(job: Job) returns (claimed: bool)
      requires db.queue == []
      modifies db`open, db`distance, db`queue
      ensures db.open == (if claimed then old(db.open) - {job} else old(db.open))
      ensures db.distance == old(db.distance) && db.queue == []
    {
      db.StartTransaction();
      claimed := *;
      if claimed {
        db.ClaimTask(job);
        db.FinishTransaction(true);
      } else {
        db.FinishTransaction(false);
      }
    }

    /** Clears the caches when the kind of job changes. */
    method ChangeKind(kind: Kind)
      modifies this`topDs, this`fvBuffer, this`lastFvt, this`lastDist
      ensures LastKind() == kind
      ensures topDs == (if old(LastKind()) == kind then old(topDs) else map[])
      ensures fvBuffer == (if old(lastFvt) == kind.fvt then old(fvBuffer) else {})
      ensures old(Sound()) ==> Sound()
    {
      if lastFvt != kind.fvt {
        fvBuffer := {};
      }
      if lastDist != kind.dist || lastFvt != kind.fvt {
        topDs := map[];
        EmptyCache(db.files, db.distance, kind);
      }
      lastFvt, lastDist := kind.fvt, kind.dist;
    }

    /** Fetches the vector of a track of the current kind: the cache stays sound. */
    method FetchCurrent(track: int, ghost met: seq<Meeting>)
      requires Sound() && RowsTrue(db.distance, metric, met)
      modifies this`topDs, this`fvBuffer
      ensures Sound()
      ensures topDs == Fetched(old(topDs), track, track in old(fvBuffer), initialRun,
                               TopK(RealLeq, topK, Values(db.files, db.distance, LastKind(), track)))
    {
      hide CacheOk, RowsTrue, Fetched;
      TrueRowsArePrinted(db.distance, metric, met);
      assert db.distance + [] == db.distance;
      FetchedKeepsCache(db.files, topDs, db.distance, [], LastKind(), track, track in fvBuffer, initialRun, topK);
      GetFeatureVector(LastKind(), track);
    }

    /** The tracks to compare with: queried for each job, or frozen once in bulk mode. */
    method ChooseTracks(job: Job)
      requires Distinct(db.featurevectors) && TracksOk()
      requires bulk && vTracks != [] ==> vTracksFvt == job.kind.fvt
      modifies this`vTracks, this`vTracksFvt
      ensures TracksOk() && vTracksFvt == job.kind.fvt
      ensures !bulk ==> vTracks == LowerTracks(db.featurevectors, job.kind.fvt, job.track)
      ensures bulk ==>
        vTracks == if old(vTracks) == [] then AllTracks(db.featurevectors, job.kind.fvt) else old(vTracks)
    {
      TrackLists(db.featurevectors, job.kind.fvt, job.track);
      if !bulk {
        vTracks := db.GetLowerTracks(job.kind.fvt, job.track);
      } else if vTracks == [] {
        vTracks := db.GetAllTracks(job.kind.fvt);
      }
      vTracksFvt := job.kind.fvt;
    }

    /** A claimed job may meet the tracks that it has chosen. */
    lemma ChosenCanMeet(job: Job)
      requires TablesOk({job}) && vTracksFvt == job.kind.fvt
      ensures CanMeet(db.files, db.met, job.kind, job.track, Below(vTracks, job.track))
    {
      BelowMembers(vTracks, job.track);
      assert job in db.failed + {job};
      assert FvRecord(job.kind.fvt, job.track) in db.featurevectors;
      forall b | b in vTracks ensures b in db.files {
        assert FvRecord(vTracksFvt, b) in db.featurevectors;
      }
    }

    // ------------------------------------------------------------ a job that succeeds

    /** The k nearest of the tracks that a job meets. */
    function Firsts(kind: Kind, c: int): seq<Neighbour>
      reads this`vTracks
    {
      TopK(NeighbourLeq, topK, Candidates(metric, kind, c, Below(vTracks, c)))
    }

    /** The calculation loop and the first n forward rows behind it. */
    method CalculateTask(kind: Kind, c: int, n: nat) returns (ghost moments: seq<Moment>)
      requires topK >= 1
      modifies this`topDs, this`safeRemovable, this`fvBuffer, db`queue, db`files
      ensures |moments| == |Below(vTracks, c)| && Growing(old(db.files), moments, db.files)
      ensures old(db.FilesOk()) ==> db.FilesOk()
      ensures State() == Calculated(old(State()), metric, kind, c, Below(vTracks, c), moments, initialRun, topK,
                                    db.distance, n)
    {
      hide MetAll, Growing, Store.FilesOk;
      var dists;
      dists, moments := CalcDistsToAllFvs(kind, c);
      StoreForwardRows(kind, c, dists, n);
    }

    /** All of it, still in the queue. */
    method CalculateAll(kind: Kind, c: int) returns (ghost moments: seq<Moment>)
      requires topK >= 1 && db.queue == [] && CanMeet(db.files, db.met, kind, c, Below(vTracks, c))
      requires IndexOk(db.files, db.distance, metric, topK, db.met) && CacheOk(db.files, topDs, db.distance, kind)
      modifies this`topDs, this`safeRemovable, this`fvBuffer, db`queue, db`files
      ensures |moments| == |Below(vTracks, c)| && Growing(old(db.files), moments, db.files)
      ensures old(db.FilesOk()) ==> db.FilesOk()
      ensures State() == Calculated(old(State()), metric, kind, c, Below(vTracks, c), moments, initialRun, topK,
                                    db.distance, topK)
      ensures IndexOk(db.files, db.AllRows(), metric, topK, db.met + NewMeetings(kind, c, Below(vTracks, c)))
      ensures CacheOk(db.files, topDs, db.AllRows(), kind)
         <==> Sorted(RealLeq, ListOf(old(topDs), c) + Map(NeighbourDistance, Firsts(kind, c)))
    {
      hide IndexOk, CacheOk, CanMeet, Growing, Calculated, TopK, Below, Sorted, Printed, Store.FilesOk;
      ghost var files, start := db.files, State();
      moments := CalculateTask(kind, c, topK);
      JobKeepsPromise(files, start.cache, start.safe, db.distance, metric, topK, db.met, kind, c, Below(vTracks, c),
                      moments, db.files, initialRun);
    }

    /** Bulk mode drops the index, or ends if another process has dropped it. */
    method DropForBulk()
      modifies this`bulk, this`indexDropped, db`indexed
      ensures indexDropped == (old(indexDropped) || (old(bulk) && old(db.indexed)))
      ensures bulk == (old(bulk) && indexDropped)
    {
      if bulk && !indexDropped {
        if db.indexed {
          db.DropIndex();
          indexDropped := true;
        } else {
          bulk := false;
        }
      }
    }

    /** Marks the job as done and commits its rows. */
    method FinishTask(job: Job, ghost seen: seq<int>)
      requires topK >= 1 && db.FilesOk() && TracksOk() && MetInJobs(db.met, db.done)
      requires JobsConsistent(db.featurevectors, db.open, db.done + [job], db.failed, db.distanceTypes)
      requires IndexOk(db.files, db.AllRows(), metric, topK, db.met + NewMeetings(job.kind, job.track, seen))
      modifies this`bulk, this`indexDropped, db`indexed, db`done, db`met, db`distance, db`queue
      ensures TablesOk({}) && db.queue == [] && db.distance == old(db.AllRows())
      ensures db.done == old(db.done) + [job]
      ensures db.met == old(db.met) + NewMeetings(job.kind, job.track, seen)
      ensures indexDropped == (old(indexDropped) || (old(bulk) && old(db.indexed)))
      ensures bulk == (old(bulk) && indexDropped)
    {
      hide JobsConsistent, IndexOk, HaveVectors, Store.FilesOk;
      DropForBulk();
      db.StartTransaction();
      db.MarkDone(job, NewMeetings(job.kind, job.track, seen));
      db.FinishTransaction(true);
      assert db.failed + {} == db.failed;
    }

    /** The work of a claimed job and its commit.  Every answer stays right; the cache stays sound if
        and only if the new distances may be pushed behind the cached list of the job's track. */
    method RunTask(job: Job) returns (ghost moments: seq<Moment>)
      requires TablesOk({job}) && Sound() && db.queue == []
      requires LastKind() == job.kind && vTracksFvt == job.kind.fvt
      modifies this`topDs, this`safeRemovable, this`fvBuffer, this`bulk, this`indexDropped
      modifies db`indexed, db`done, db`met, db`distance, db`queue, db`files
      ensures TablesOk({}) && db.queue == []
      ensures db.done == old(db.done) + [job]
      ensures db.met == old(db.met) + NewMeetings(job.kind, job.track, Below(vTracks, job.track))
      ensures Sound() <==> Sorted(RealLeq, ListOf(old(topDs), job.track)
                                           + Map(NeighbourDistance, Firsts(job.kind, job.track)))
      ensures |moments| == |Below(vTracks, job.track)| && Growing(old(db.files), moments, db.files)
      ensures var s := Calculated(old(State()), metric, job.kind, job.track, Below(vTracks, job.track), moments,
                                  initialRun, topK, old(db.distance), topK);
        topDs == s.cache && safeRemovable == s.safe && db.distance == old(db.distance) + Printed(s.queue)
      ensures indexDropped == (old(indexDropped) || (old(bulk) && old(db.indexed)))
      ensures bulk == (old(bulk) && indexDropped)
    {
      hide JobsConsistent, IndexOk, CacheOk, CanMeet, Growing, Calculated, TopK, Below, MetInJobs, Sorted, Printed,
        HaveVectors, Store.FilesOk;
      ChosenCanMeet(job);
      JobFinished(db.featurevectors, db.open, db.done, db.failed, db.distanceTypes, job);
      moments := CalculateAll(job.kind, job.track);
      FinishTask(job, Below(vTracks, job.track));
    }

    // ------------------------------------------------------------ a job that fails

    /** The work of a claimed job, ended by an exception: in the loop, before or after the fetch of
        another track, or after some forward rows, possibly with the index dropped. */
    method AbandonTask(job: Job)
      requires TablesOk({job}) && Sound() && db.queue == []
      requires LastKind() == job.kind && vTracksFvt == job.kind.fvt
      modifies this`topDs, this`safeRemovable, this`fvBuffer, this`bulk, this`indexDropped
      modifies db`indexed, db`queue, db`files
      ensures TablesOk({job}) && old(db.files) <= db.files
      ensures Recorded(db.files, topDs, db.AllRows(), LastKind())
      ensures bulk ==> old(bulk)
    {
      hide IndexOk, CacheOk, Recorded, CanMeet, JobsConsistent, MetInJobs, Below, Printed, Store.FilesOk;
      ChosenCanMeet(job);
      var n: nat, fetched: bool, failing: bool := *, *, *;
      if n <= |vTracks| {
        ghost var moments := StopInLoop(job.kind, job.track, n, fetched, failing);
      } else {
        StopAtCommit(job.kind, job.track);
      }
    }

    /** After n tracks; the vector of the next lower one may have been fetched already, or its fetch
        may be what fails. */
    method StopInLoop(kind: Kind, c: int, n: nat, fetched: bool, failing: bool) returns (ghost moments: seq<Moment>)
      requires topK >= 1 && db.queue == [] && n <= |vTracks| && CanMeet(db.files, db.met, kind, c, Below(vTracks, c))
      requires IndexOk(db.files, db.distance, metric, topK, db.met) && CacheOk(db.files, topDs, db.distance, kind)
      requires Distinct(vTracks)
      modifies this`topDs, this`safeRemovable, this`fvBuffer, db`queue, db`files
      ensures old(db.files) <= db.files && (old(db.FilesOk()) ==> db.FilesOk())
      ensures IndexOk(db.files, db.distance, metric, topK, db.met)
      ensures |moments| == |Below(vTracks[..n], c)| && Growing(old(db.files), moments, db.files)
      ensures !fetched && !failing ==>
        State() == MetAll(old(State()), metric, kind, Below(vTracks[..n], c), c, moments, initialRun, topK, db.distance)
      ensures Recorded(db.files, topDs, db.AllRows(), kind)
    {
      hide IndexOk, CacheOk, MetAll, CanMeet, Recorded, Growing, Below, Store.FilesOk, Printed;
      ghost var start, files, seen := State(), db.files, Below(vTracks[..n], c);
      PartOfLoop(files, db.met, kind, vTracks, n, c);
      var dists;
      dists, moments := MeetTracks(kind, c, n);
      GrowingMore(files, moments, db.files, db.files);
      LoopIsRecorded(files, start.cache, start.safe, db.distance, metric, topK, db.met, kind, c, seen, moments,
                     db.files, initialRun);
      if n < |vTracks| && vTracks[n] < c {
        var b := vTracks[n];
        if fetched {
          FetchedKeepsCache(db.files, topDs, db.distance, Printed(db.queue), kind, b, b in fvBuffer, initialRun, topK);
          GetFeatureVector(kind, b);
        } else if failing {
          ListMentioned(db.files, topDs, db.AllRows(), kind, b);
          FetchFails(b);
        }
      }
      CacheParts(db.files, topDs, db.AllRows(), kind);
    }

    static lemma PartOfLoop(files: Files, met: seq<Meeting>, kind: Kind, ts: seq<int>, n: nat, c: int)
      requires n <= |ts| && Distinct(ts) && CanMeet(files, met, kind, c, Below(ts, c))
      ensures CanMeet(files, met, kind, c, Below(ts[..n], c))
    {
      BelowMembers(ts, c);
      BelowMembers(ts[..n], c);
    }

    method StopAtCommit(kind: Kind, c: int)
      requires topK >= 1 && db.queue == [] && CanMeet(db.files, db.met, kind, c, Below(vTracks, c))
      requires IndexOk(db.files, db.distance, metric, topK, db.met) && CacheOk(db.files, topDs, db.distance, kind)
      modifies this`topDs, this`safeRemovable, this`fvBuffer, this`bulk, this`indexDropped
      modifies db`indexed, db`queue, db`files
      ensures old(db.files) <= db.files && (old(db.FilesOk()) ==> db.FilesOk())
      ensures IndexOk(db.files, db.distance, metric, topK, db.met)
      ensures Recorded(db.files, topDs, db.AllRows(), kind)
      ensures bulk ==> old(bulk)
    {
      hide IndexOk, CacheOk, CanMeet, Recorded, Growing, Calculated, Below, Printed, Store.FilesOk;
      ghost var seen, files, start := Below(vTracks, c), db.files, State();
      var n: nat, dropping: bool := *, *;
      if n > topK {
        n := topK;
      }
      ghost var moments := CalculateTask(kind, c, n);
      GrowingMore(files, moments, db.files, db.files);
      ForwardIsRecorded(files, start.cache, start.safe, db.distance, metric, topK, db.met, kind, c, seen, moments,
                        db.files, initialRun, n);
      if dropping {
        DropForBulk();
      }
    }

    /** The job has failed: its rows are dropped, the cache is not undone.  The answers stay right, and
        the cache is sound for the committed rows if and only if its lists are sorted and no value of
        a dropped row is kept. */
    method FailTask(job: Job)
      requires TablesOk({job}) && Recorded(db.files, topDs, db.AllRows(), LastKind())
      modifies db`failed, db`distance, db`queue
      ensures TablesOk({}) && db.queue == [] && db.distance == old(db.distance)
      ensures db.failed == old(db.failed) + {job}
      ensures Sound() <==>
        AllSorted(topDs) && !KeepsDropped(db.files, topDs, db.distance, Printed(old(db.queue)), LastKind())
    {
      hide IndexOk, CacheOk, KeepsDropped, Recorded, JobsConsistent, MetInJobs, AllSorted, HaveVectors, Store.FilesOk;
      SoundAfterRollbackIff(db.files, topDs, db.distance, Printed(db.queue), LastKind());
      db.FinishTransaction(false);
      db.StartTransaction();
      db.MarkFailed(job);
      assert db.distance + Printed([]) == db.distance;
      db.FinishTransaction(true);
      assert db.failed + {} == db.failed;
    }
  }
}
