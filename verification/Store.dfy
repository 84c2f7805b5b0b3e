/** The parts of the PostgreSQL store that the distance daemon works on: the distance
    table with its commit queue, the feature vectors and the distance jobs. */
module Store {
  import opened Ordering
  import opened Distances
  import opened FileJoin

  datatype FvRecord = FvRecord(fvt: int, track: int)

  datatype Job = Job(kind: Kind, track: int)

  // --------------------------------------------------------- reading a table

  /** The rows of `rows` that start at track `a`, as neighbour entries. */
  function Neighbours(rows: seq<Row>, kind: Kind, a: int): seq<Neighbour> {
    if rows == [] then []
    else
      var r := rows[|rows| - 1];
      Neighbours(rows[..|rows| - 1], kind, a)
      + if r.kind == kind && r.a == a then [Neighbour(r.value, r.b, -1)] else []
  }

  /** The distances that a query for track `a` chooses from. */
  function Values(files: Files, rows: seq<Row>, kind: Kind, a: int): seq<real> {
    Joined(files, Neighbours(rows, kind, a))
  }

  function PrintRow(r: Row): Row {
    r.(value := SixDecimals(r.value))
  }

  /** The rows as the COPY command stores them. */
  function Printed(rows: seq<Row>): seq<Row> {
    Map(PrintRow, rows)
  }

  ghost predicate UniqueRows(rows: seq<Row>) {
    forall i, j :: 0 <= i < j < |rows| ==>
      !(rows[i].kind == rows[j].kind && rows[i].a == rows[j].a && rows[i].b == rows[j].b)
  }

  lemma {:induction false} NeighboursConcat(rows: seq<Row>, more: seq<Row>, kind: Kind, a: int)
    ensures Neighbours(rows + more, kind, a) == Neighbours(rows, kind, a) + Neighbours(more, kind, a)
  {
    if more == [] {
      assert rows + more == rows;
    } else {
      var init := more[..|more| - 1];
      assert (rows + more)[..|rows + more| - 1] == rows + init;
      NeighboursConcat(rows, init, kind, a);
    }
  }

  lemma NeighboursAppend(rows: seq<Row>, r: Row, kind: Kind, a: int)
    ensures Neighbours(rows + [r], kind, a)
         == Neighbours(rows, kind, a) + if r.kind == kind && r.a == a then [Neighbour(r.value, r.b, -1)] else []
  {
    assert (rows + [r])[..|rows|] == rows;
  }

  lemma ValuesConcat(files: Files, rows: seq<Row>, more: seq<Row>, kind: Kind, a: int)
    ensures Values(files, rows + more, kind, a) == Values(files, rows, kind, a) + Values(files, more, kind, a)
  {
    NeighboursConcat(rows, more, kind, a);
    JoinConcat(files, Neighbours(rows, kind, a), Neighbours(more, kind, a));
  }

  lemma ValuesAppend(files: Files, rows: seq<Row>, r: Row, kind: Kind, a: int)
    ensures Values(files, rows + [r], kind, a)
         == Values(files, rows, kind, a) + if r.kind == kind && r.a == a then Repeat(files[r.b], r.value) else []
  {
    hide Neighbours, Joined;
    NeighboursAppend(rows, r, kind, a);
    var ns := Neighbours(rows, kind, a);
    assert ns + [] == ns && Joined(files, ns) + [] == Joined(files, ns);
    JoinAppend(files, ns, Neighbour(r.value, r.b, -1));
  }

  lemma {:induction false} NeighbourIsRow(rows: seq<Row>, kind: Kind, a: int, i: nat)
    requires i < |Neighbours(rows, kind, a)|
    ensures var n := Neighbours(rows, kind, a)[i];
      Row(kind, a, n.track, n.d) in rows && n.segment == -1
  {
    var init := rows[..|rows| - 1];
    if i < |Neighbours(init, kind, a)| {
      NeighbourIsRow(init, kind, a, i);
    }
  }

  lemma NoRowsNoValues(files: Files, rows: seq<Row>, kind: Kind, a: int)
    requires forall r :: r in rows ==> !(r.kind == kind && r.a == a)
    ensures Neighbours(rows, kind, a) == [] && Values(files, rows, kind, a) == []
  {
    if Neighbours(rows, kind, a) != [] {
      NeighbourIsRow(rows, kind, a, 0);
    }
  }

  // ----------------------------------------------------------------- purging

  /** DELETE of the rows from track a that lead to a doomed track. */
  function Without(rows: seq<Row>, kind: Kind, a: int, doomed: set<int>): seq<Row> {
    if rows == [] then []
    else
      var r := rows[|rows| - 1];
      Without(rows[..|rows| - 1], kind, a, doomed)
      + if r.kind == kind && r.a == a && r.b in doomed then [] else [r]
  }

  function Spared(ns: seq<Neighbour>, doomed: set<int>): seq<Neighbour> {
    if ns == [] then []
    else
      Spared(ns[..|ns| - 1], doomed)
      + if ns[|ns| - 1].track in doomed then [] else [ns[|ns| - 1]]
  }

  lemma {:induction false} NeighboursWithout(rows: seq<Row>, kind: Kind, a: int, doomed: set<int>, kd: Kind, x: int)
    ensures Neighbours(Without(rows, kind, a, doomed), kd, x)
         == if kd == kind && x == a then Spared(Neighbours(rows, kd, x), doomed) else Neighbours(rows, kd, x)
  {
    if rows != [] {
      var init, r := rows[..|rows| - 1], rows[|rows| - 1];
      NeighboursWithout(init, kind, a, doomed, kd, x);
      var w := Without(init, kind, a, doomed);
      assert (w + [r])[..|w|] == w && w + [] == w;
      var ns, n := Neighbours(init, kd, x), Neighbour(r.value, r.b, -1);
      assert (ns + [n])[..|ns|] == ns && ns + [] == ns;
      assert Spared(ns + [n], doomed) == Spared(ns, doomed) + if n.track in doomed then [] else [n];
      assert Neighbours(rows, kd, x) == if r.kind == kd && r.a == x then ns + [n] else ns;
    }
  }

  lemma {:induction false} WithoutIsPart(rows: seq<Row>, kind: Kind, a: int, doomed: set<int>)
    ensures forall r :: r in Without(rows, kind, a, doomed) ==> r in rows
    ensures UniqueRows(rows) ==> UniqueRows(Without(rows, kind, a, doomed))
  {
    if rows != [] {
      var init, r := rows[..|rows| - 1], rows[|rows| - 1];
      WithoutIsPart(init, kind, a, doomed);
      assert rows == init + [r];
      if UniqueRows(rows) {
        forall w | w in Without(init, kind, a, doomed) ensures !(w.kind == r.kind && w.a == r.a && w.b == r.b) {
          var i :| 0 <= i < |init| && init[i] == w;
          assert rows[i] == w;
        }
      }
    }
  }

  lemma {:induction false} SparedCount(ns: seq<Neighbour>, doomed: set<int>, n: Neighbour)
    ensures multiset(Spared(ns, doomed))[n] == if n.track in doomed then 0 else multiset(ns)[n]
  {
    if ns != [] {
      var init, last := ns[..|ns| - 1], ns[|ns| - 1];
      SparedCount(init, doomed, n);
      assert ns == init + [last];
    }
  }

  lemma {:induction false} NeighbourTracksDistinct(rows: seq<Row>, kind: Kind, a: int)
    requires UniqueRows(rows)
    ensures DistinctTracks(Neighbours(rows, kind, a))
  {
    if rows != [] {
      var init, r := rows[..|rows| - 1], rows[|rows| - 1];
      NeighbourTracksDistinct(init, kind, a);
      forall i | 0 <= i < |Neighbours(init, kind, a)| && r.kind == kind && r.a == a
        ensures Neighbours(init, kind, a)[i].track != r.b
      {
        NeighbourIsRow(init, kind, a, i);
      }
    }
  }

  function TrackSet(ns: seq<Neighbour>): set<int> {
    set i | 0 <= i < |ns| :: ns[i].track
  }

  /** Deleting what comes after the first k of any sorted list of a track's rows leaves
      exactly those first k. */
  lemma PurgeLeavesFirst(ns: seq<Neighbour>, k: nat, sorted: seq<Neighbour>)
    requires multiset(sorted) == multiset(ns)
    requires DistinctTracks(sorted)
    ensures multiset(Spared(ns, TrackSet(sorted[|Take(k, sorted)|..]))) == multiset(Take(k, sorted))
  {
    var keep, drop := Take(k, sorted), sorted[|Take(k, sorted)|..];
    assert sorted == keep + drop;
    var doomed := TrackSet(drop);
    hide Spared, TrackSet, DistinctTracks, Take;
    forall n ensures multiset(Spared(ns, doomed))[n] == multiset(keep)[n] {
      SparedCount(ns, doomed, n);
      KeptOrDoomed(keep, drop, n);
    }
  }

  lemma KeptOrDoomed(keep: seq<Neighbour>, drop: seq<Neighbour>, n: Neighbour)
    requires DistinctTracks(keep + drop)
    ensures multiset(keep)[n] == if n.track in TrackSet(drop) then 0 else multiset(keep + drop)[n]
  {
    if n.track in TrackSet(drop) {
      var i :| 0 <= i < |drop| && drop[i].track == n.track;
      forall j | 0 <= j < |keep| ensures keep[j] != n {
        assert (keep + drop)[j].track != (keep + drop)[|keep| + i].track;
      }
      assert n !in keep;
    } else {
      assert n !in drop;
    }
  }

  // ------------------------------------------------------------- track lists

  function LowerTracks(fvs: seq<FvRecord>, fvt: int, c: int): seq<int> {
    if fvs == [] then []
    else
      var f := fvs[|fvs| - 1];
      LowerTracks(fvs[..|fvs| - 1], fvt, c) + if f.fvt == fvt && f.track < c then [f.track] else []
  }

  function AllTracks(fvs: seq<FvRecord>, fvt: int): seq<int> {
    if fvs == [] then []
    else
      var f := fvs[|fvs| - 1];
      AllTracks(fvs[..|fvs| - 1], fvt) + if f.fvt == fvt then [f.track] else []
  }

  lemma {:induction false} TrackLists(fvs: seq<FvRecord>, fvt: int, c: int)
    ensures forall t :: t in LowerTracks(fvs, fvt, c) <==> FvRecord(fvt, t) in fvs && t < c
    ensures forall t :: t in AllTracks(fvs, fvt) <==> FvRecord(fvt, t) in fvs
    ensures Distinct(fvs) ==> Distinct(LowerTracks(fvs, fvt, c)) && Distinct(AllTracks(fvs, fvt))
  {
    if fvs != [] {
      var init, last := fvs[..|fvs| - 1], fvs[|fvs| - 1];
      TrackLists(init, fvt, c);
      assert fvs == init + [last];
      if Distinct(fvs) {
        assert last !in init;
      }
    }
  }

  predicate JobLeq(x: Job, y: Job) {
    || x.kind.fvt < y.kind.fvt
    || (x.kind.fvt == y.kind.fvt
        && (x.kind.dist < y.kind.dist || (x.kind.dist == y.kind.dist && x.track <= y.track)))
  }

  /** Every feature vector has one job per distance type, which is open, done or taken off without
      being done, that is claimed or failed. */
  ghost predicate JobsConsistent(fvs: seq<FvRecord>, open: set<Job>, done: seq<Job>, taken: set<Job>,
                                 distanceTypes: seq<int>)
  {
    && Distinct(fvs) && Distinct(done)
    && (forall f, d :: f in fvs && d in distanceTypes ==>
          var j := Job(Kind(f.fvt, d), f.track); j in open || j in done || j in taken)
    && (forall j :: j in open || j in done || j in taken ==>
          FvRecord(j.kind.fvt, j.track) in fvs && j.kind.dist in distanceTypes)
    && (forall j :: j in open ==> j !in done && j !in taken)
    && (forall j :: j in taken ==> j !in done)
  }

  /** The filters of a daemon; an empty one takes every type. */
  datatype Filter = Filter(distanceTypes: set<int>, fvTypes: set<int>)

  predicate Wanted(job: Job, filter: Filter) {
    && (filter.distanceTypes == {} || job.kind.dist in filter.distanceTypes)
    && (filter.fvTypes == {} || job.kind.fvt in filter.fvTypes)
  }

  /** The first open job among those that pass the filters. */
  predicate IsFirst(job: Job, open: set<Job>, filter: Filter) {
    job in open && Wanted(job, filter) && forall j :: j in open && Wanted(j, filter) ==> JobLeq(job, j)
  }

  /** A filter passes the asked distance types and feature vector types, and the first job has the least
      type, then the least distance type, then the least track. */
  lemma FirstMeaning(job: Job, open: set<Job>, filter: Filter)
    ensures Wanted(job, filter) <==>
      && (filter.distanceTypes != {} ==> job.kind.dist in filter.distanceTypes)
      && (filter.fvTypes != {} ==> job.kind.fvt in filter.fvTypes)
    ensures IsFirst(job, open, filter) <==>
      && job in open && Wanted(job, filter)
      && forall j :: j in open && Wanted(j, filter) ==>
           || job.kind.fvt < j.kind.fvt
           || (job.kind.fvt == j.kind.fvt && job.kind.dist < j.kind.dist)
           || (job.kind == j.kind && job.track <= j.track)
  {
    hide Wanted;
    WantedMeaning(job, filter);
    forall j | j in open
      ensures JobLeq(job, j) <==>
        || job.kind.fvt < j.kind.fvt
        || (job.kind.fvt == j.kind.fvt && job.kind.dist < j.kind.dist)
        || (job.kind == j.kind && job.track <= j.track)
    {
      assert job.kind == j.kind <==> job.kind.fvt == j.kind.fvt && job.kind.dist == j.kind.dist;
    }
  }

  lemma WantedMeaning(job: Job, filter: Filter)
    ensures Wanted(job, filter) <==>
      && (filter.distanceTypes != {} ==> job.kind.dist in filter.distanceTypes)
      && (filter.fvTypes != {} ==> job.kind.fvt in filter.fvTypes)
  {
  }

  /** No open job of the same kind has a lower track. */
  predicate FirstOfKind(job: Job, open: set<Job>) {
    job in open && forall j :: j in open && j.kind == job.kind ==> job.track <= j.track
  }

  /** Filters never tear the jobs of one kind apart. */
  lemma FirstIsFirstOfKind(job: Job, open: set<Job>, filter: Filter)
    requires IsFirst(job, open, filter)
    ensures FirstOfKind(job, open)
  {
    forall j | j in open && j.kind == job.kind ensures job.track <= j.track {
      assert Wanted(j, filter) && JobLeq(job, j);
    }
  }

  lemma JobClaimed(fvs: seq<FvRecord>, open: set<Job>, done: seq<Job>, taken: set<Job>, distanceTypes: seq<int>,
                   job: Job)
    requires JobsConsistent(fvs, open, done, taken, distanceTypes) && job in open
    ensures JobsConsistent(fvs, open - {job}, done, taken + {job}, distanceTypes)
  {
  }

  lemma JobFinished(fvs: seq<FvRecord>, open: set<Job>, done: seq<Job>, taken: set<Job>, distanceTypes: seq<int>,
                    job: Job)
    requires JobsConsistent(fvs, open, done, taken + {job}, distanceTypes) && job !in taken
    ensures JobsConsistent(fvs, open, done + [job], taken, distanceTypes)
  {
    assert job in taken + {job};
    assert forall j :: j in taken ==> j in taken + {job};
  }

  /** Two tracks meet when the job of the first, which has the higher id, compares it with the second. */
  datatype Meeting = Meeting(kind: Kind, a: int, b: int)

  /** A query may be restricted to the files of a collection. */
  datatype Scope = Everything | Collection(files: Files)

  function Admitted(scope: Scope, files: Files): Files {
    if scope.Everything? then files else scope.files
  }

  class Store {
    var distance: seq<Row>
    var queue: seq<Row>
    var files: Files
    var featurevectors: seq<FvRecord>
    var open: set<Job>
    var done: seq<Job>
    var failed: set<Job>
    var indexed: bool
    const distanceTypes: seq<int>
    /** The meetings of the committed jobs. */
    ghost var met: seq<Meeting>

    constructor (distanceTypes: seq<int>)
      ensures this.distanceTypes == distanceTypes
      ensures distance == [] && queue == [] && featurevectors == [] && open == {} && done == []
      ensures failed == {} && met == [] && files == multiset{} && FilesOk()
    {
      this.distanceTypes := distanceTypes;
      distance, queue, files, featurevectors, open, done, indexed := [], [], multiset{}, [], {}, [], true;
      failed, met := {}, [];
    }

    /** Everything recorded so far: the committed rows and the queued ones. */
    function AllRows(): seq<Row>
      reads this`distance, this`queue
    {
      distance + Printed(queue)
    }

    ghost predicate JobsOk()
      reads this`featurevectors, this`open, this`done, this`failed
    {
      JobsConsistent(featurevectors, open, done, failed, distanceTypes)
    }

    /** Every track with a feature vector has a file. */
    ghost predicate FilesOk()
      reads this`files, this`featurevectors
    {
      forall f :: f in featurevectors ==> f.track in files
    }

    // -------------------------------------------------------- transactions

    method StartTransaction()
    {
    }

    method FinishTransaction(commit: bool)
      modifies this`distance, this`queue
      ensures queue == []
      ensures distance == if commit then old(distance) + Printed(old(queue)) else old(distance)
    {
      if commit {
        if |queue| > 0 {
          CopyDistsToDb();
          queue := [];
        }
      } else {
        queue := [];
      }
    }

    method CopyDistsToDb()
      modifies this`distance
      ensures distance == old(distance) + Printed(queue)
    {
      var i := 0;
      assert Printed(queue)[..0] == [];
      while i < |queue|
        invariant 0 <= i <= |queue|
        invariant distance == old(distance) + Printed(queue)[..i]
      {
        distance := distance + [PrintRow(queue[i])];
        i := i + 1;
      }
    }

    method InsertDistanceRecord(row: Row)
      modifies this`queue
      ensures queue == old(queue) + [row]
      ensures AllRows() == old(AllRows()) + [PrintRow(row)]
    {
      queue := queue + [row];
      assert Printed(queue) == Printed(old(queue)) + [PrintRow(row)];
    }

    method DropIndex()
      modifies this`indexed
      ensures !indexed
    {
      indexed := false;
    }

    method CreateIndex()
      modifies this`indexed
      ensures indexed
    {
      indexed := true;
    }

    // ------------------------------------------------------------- queries

    /** The nearest k rows of a track behind the first `skip` ones, one for each file of the neighbour
        that the scope admits; equal distances come in any order. */
    method QueryNn(track: int, kind: Kind, scope: Scope, skip: nat, k: nat) returns (nns: seq<Neighbour>)
      ensures multiset(nns) <= multiset(JoinFiles(Admitted(scope, files), Neighbours(distance, kind, track)))
      ensures Map(NeighbourDistance, nns)
           == Window(RealLeq, skip, k, Values(Admitted(scope, files), distance, kind, track))
    {
      var matching := SelectRows(kind, track);
      matching := JoinFiles(Admitted(scope, files), matching);
      nns := Window(NeighbourLeq, skip, k, matching);
      WindowOfEntries(matching, skip, k);
    }

    static lemma WindowOfEntries(ns: seq<Neighbour>, skip: nat, k: nat)
      ensures multiset(Window(NeighbourLeq, skip, k, ns)) <= multiset(ns)
      ensures Map(NeighbourDistance, Window(NeighbourLeq, skip, k, ns))
           == Window(RealLeq, skip, k, Map(NeighbourDistance, ns))
    {
      NeighbourOrder();
      RealOrder();
      WindowIsPart(NeighbourLeq, skip, k, ns);
      TopKMap(NeighbourLeq, RealLeq, NeighbourDistance, skip + k, ns);
      hide TopK;
      MapWindow(NeighbourDistance, TopK(NeighbourLeq, skip + k, ns), skip);
    }

    static lemma MapWindow<T, U>(f: T -> U, first: seq<T>, skip: nat)
      ensures Map(f, if |first| <= skip then [] else first[skip..])
           == if |first| <= skip then [] else Map(f, first)[skip..]
    {
    }

    /** ORDER BY value: the order of equal distances is not promised. */
    method OrderByValue(ns: seq<Neighbour>) returns (sorted: seq<Neighbour>)
      ensures multiset(sorted) == multiset(ns) && NearestFirst(sorted)
    {
      NeighbourOrder();
      SortSorts(NeighbourLeq, ns);
      sorted := Sort(NeighbourLeq, ns);
      forall i, j | 0 <= i < j < |sorted| ensures sorted[i].d <= sorted[j].d {
        assert NeighbourLeq(sorted[i], sorted[j]);
      }
    }

    /** Keeps k rows of one track that are nearest and deletes the others. */
    method PurgeDistanceTable(track: int, kind: Kind, k: nat) returns (ghost sorted: seq<Neighbour>)
      requires UniqueRows(distance)
      modifies this`distance
      ensures UniqueRows(distance) && forall r :: r in distance ==> r in old(distance)
      ensures multiset(sorted) == multiset(Neighbours(old(distance), kind, track)) && NearestFirst(sorted)
      ensures multiset(Neighbours(distance, kind, track)) == multiset(Take(k, sorted))
      ensures forall kd, a :: kd != kind || a != track ==>
        Neighbours(distance, kd, a) == Neighbours(old(distance), kd, a)
    {
      var ns := SelectRows(kind, track);
      var ordered := OrderByValue(ns);
      sorted := ordered;
      var doomed := TrackSet(ordered[|Take(k, ordered)|..]);
      ghost var before := distance;
      WithoutIsPart(before, kind, track, doomed);
      NeighbourTracksDistinct(before, kind, track);
      PermutedTracksDistinct(ns, ordered);
      PurgeLeavesFirst(ns, k, ordered);
      forall kd, a {
        NeighboursWithout(before, kind, track, doomed, kd, a);
      }
      distance := Without(distance, kind, track, doomed);
    }

    static lemma PermutedTracksDistinct(ns: seq<Neighbour>, sorted: seq<Neighbour>)
      requires multiset(sorted) == multiset(ns)
      requires DistinctTracks(ns)
      ensures DistinctTracks(sorted)
    {
      forall i, j | 0 <= i < j < |sorted| ensures sorted[i].track != sorted[j].track {
        assert sorted[i] in multiset(ns) && sorted[j] in multiset(ns);
        var p :| 0 <= p < |ns| && ns[p] == sorted[i];
        var q :| 0 <= q < |ns| && ns[q] == sorted[j];
        if p == q {
          TwiceInMultiset(sorted, i, j);
          OnceInMultiset(ns, sorted[i]);
        }
      }
    }

    method SelectRows(kind: Kind, track: int) returns (r: seq<Neighbour>)
      ensures r == Neighbours(distance, kind, track)
    {
      r := [];
      var i := 0;
      while i < |distance|
        invariant 0 <= i <= |distance|
        invariant r == Neighbours(distance[..i], kind, track)
      {
        assert distance[..i + 1][..i] == distance[..i];
        if distance[i].kind == kind && distance[i].a == track {
          r := r + [Neighbour(distance[i].value, distance[i].b, -1)];
        }
        i := i + 1;
      }
      assert distance[..i] == distance;
    }

    method GetLowerTracks(fvt: int, c: int) returns (r: seq<int>)
      ensures r == LowerTracks(featurevectors, fvt, c)
    {
      r := [];
      var i := 0;
      while i < |featurevectors|
        invariant 0 <= i <= |featurevectors|
        invariant r == LowerTracks(featurevectors[..i], fvt, c)
      {
        assert featurevectors[..i + 1][..i] == featurevectors[..i];
        if featurevectors[i].fvt == fvt && featurevectors[i].track < c {
          r := r + [featurevectors[i].track];
        }
        i := i + 1;
      }
      assert featurevectors[..i] == featurevectors;
    }

    method GetAllTracks(fvt: int) returns (r: seq<int>)
      ensures r == AllTracks(featurevectors, fvt)
    {
      r := [];
      var i := 0;
      while i < |featurevectors|
        invariant 0 <= i <= |featurevectors|
        invariant r == AllTracks(featurevectors[..i], fvt)
      {
        assert featurevectors[..i + 1][..i] == featurevectors[..i];
        if featurevectors[i].fvt == fvt {
          r := r + [featurevectors[i].track];
        }
        i := i + 1;
      }
      assert featurevectors[..i] == featurevectors;
    }

    // ---------------------------------------------------------------- jobs

    /** The first open job that passes the filters, in the order (type, distance type, track). */
    method GetOpenTask(filter: Filter) returns (vacancy: bool, job: Job)
      ensures vacancy <==> exists j :: j in open && Wanted(j, filter)
      ensures vacancy ==> IsFirst(job, open, filter)
    {
      vacancy, job := false, Job(Kind(0, 0), 0);
      var rest := open;
      while rest != {}
        invariant rest <= open
        invariant vacancy ==> job in open && Wanted(job, filter)
        invariant forall j :: j in open && j !in rest && Wanted(j, filter) ==> vacancy && JobLeq(job, j)
        decreases rest
      {
        var j :| j in rest;
        if Wanted(j, filter) && (!vacancy || !JobLeq(job, j)) {
          vacancy, job := true, j;
        }
        rest := rest - {j};
      }
    }

    method ClaimTask(job: Job)
      modifies this`open
      ensures open == old(open) - {job}
    {
      open := open - {job};
    }

    method MarkDone(job: Job, ghost meetings: seq<Meeting>)
      modifies this`done, this`met
      ensures done == old(done) + [job] && met == old(met) + meetings
    {
      done := done + [job];
      met := met + meetings;
    }

    method MarkFailed(job: Job)
      modifies this`failed
      ensures failed == old(failed) + {job}
    {
      failed := failed + {job};
    }

    /** A file record is stored for a track. */
    method StoreFile(track: int)
      modifies this`files
      ensures files == old(files) + multiset{track}
      ensures old(FilesOk()) ==> FilesOk()
    {
      files := files + multiset{track};
    }

    /** Other programs store any number of files. */
    method StoreFiles()
      modifies this`files
      ensures old(files) <= files
      ensures old(FilesOk()) ==> FilesOk()
    {
      var n: nat := *;
      while n > 0
        invariant old(files) <= files
      {
        var track: int := *;
        StoreFile(track);
        n := n - 1;
      }
    }

    /** The job table while some jobs are claimed. */
    ghost predicate JobsRunning(claimed: set<Job>)
      reads this`featurevectors, this`open, this`done, this`failed
    {
      failed !! claimed && JobsConsistent(featurevectors, open, done, failed + claimed, distanceTypes)
    }

    lemma NothingRunning()
      ensures JobsRunning({}) <==> JobsOk()
    {
      assert failed + {} == failed;
    }

    /** The add-file program stores a new feature vector and, in the same transaction,
        one distance job for each distance type. */
    method AddFeatureVector(f: FvRecord, ghost claimed: set<Job>)
      requires JobsRunning(claimed) && f !in featurevectors
      modifies this`featurevectors, this`open
      ensures JobsRunning(claimed) && (old(FilesOk()) && f.track in files ==> FilesOk())
      ensures featurevectors == old(featurevectors) + [f]
      ensures forall j :: j in open <==>
        j in old(open) || (j.kind.fvt == f.fvt && j.track == f.track && j.kind.dist in distanceTypes)
    {
      var i := 0;
      while i < |distanceTypes|
        invariant 0 <= i <= |distanceTypes|
        invariant featurevectors == old(featurevectors)
        invariant forall j :: j in open <==>
          j in old(open) || (j.kind.fvt == f.fvt && j.track == f.track && j.kind.dist in distanceTypes[..i])
      {
        open := open + {Job(Kind(f.fvt, distanceTypes[i]), f.track)};
        i := i + 1;
      }
      assert distanceTypes[..i] == distanceTypes;
      featurevectors := featurevectors + [f];
    }
  }
}
