/** The add-file and delete-file jobs: tracks, files, feature vectors and the distance jobs
    they spawn. */
module Intake {
  import opened Wrappers
  import opened Ordering
  import opened Collections

  /** Empty texts stand for NULL columns. */
  datatype FileRow = FileRow(hash: string, uri: string, externalKey: string, guid: string, track: int)

  datatype FvRow = FvRow(track: int, fvtype: int)

  datatype DistanceJob = DistanceJob(track: int, fvtype: int, distanceType: int)

  /** What the client asks for: the identifying texts of the file and a collection name. */
  datatype AddRequest = AddRequest(hash: string, uri: string, externalKey: string, guid: string, collection: string)

  /** What the decoder and the extractors say about the file: its fingerprint, the enabled types,
      the types they can deliver, whether one raised an error, and whether the processed
      file could be moved away. */
  datatype Outcome = Outcome(fingerprint: string, requested: seq<int>, extracted: set<int>, raised: bool, moved: bool)

  /** The tracks that jobs for the map add or delete, in the order in which the jobs were created. */
  datatype MapJobs = MapJobs(adds: seq<int>, deletes: seq<int>)

  datatype Snapshot = Snapshot(tracks: map<int, string>, files: map<int, FileRow>, fvs: seq<FvRow>,
                               jobs: seq<DistanceJob>, mapJobs: MapJobs, collections: map<string, int>,
                               rows: seq<Membership>, nextId: int)

  /** The lookup compares the guid with "=", which no NULL guid passes. */
  predicate Matches(row: FileRow, q: AddRequest) {
    row.hash == q.hash && row.uri == q.uri && row.externalKey == q.externalKey && row.guid == q.guid && q.guid != ""
  }

  ghost predicate Known(files: map<int, FileRow>, q: AddRequest) {
    exists f :: f in files && Matches(files[f], q)
  }

  /** The unique keys of the file table on guid and external key. */
  predicate Clash(row: FileRow, externalKey: string, guid: string) {
    (guid != "" && row.guid == guid) || (externalKey != "" && row.externalKey == externalKey)
  }

  ghost predicate Taken(files: map<int, FileRow>, q: AddRequest) {
    exists f :: f in files && Clash(files[f], q.externalKey, q.guid)
  }

  ghost predicate KeysUnique(files: map<int, FileRow>) {
    forall f, g :: f in files && g in files && f != g ==> !Clash(files[f], files[g].externalKey, files[g].guid)
  }

  ghost predicate Fingerprinted(tracks: map<int, string>, fingerprint: string) {
    exists t :: t in tracks && tracks[t] == fingerprint
  }

  ghost predicate OneTrackPerFingerprint(tracks: map<int, string>) {
    forall t, u :: t in tracks && u in tracks && tracks[t] == tracks[u] ==> t == u
  }

  ghost predicate IdsUsed(tracks: map<int, string>, files: map<int, FileRow>, nextId: int) {
    && (forall t :: t in tracks ==> t < nextId)
    && (forall f :: f in files ==> f < nextId)
    && (forall f :: f in files ==> files[f].track in tracks)
  }

  /** The reserved names keep their ids and no two names share one. */
  ghost predicate CollectionsOk(collections: map<string, int>, nextId: int) {
    && "_r" in collections && collections["_r"] == REMOVED
    && "_d" in collections && collections["_d"] == DEFAULT
    && (forall n :: n in collections ==> collections[n] < nextId)
    && (forall m, n :: m in collections && n in collections && collections[m] == collections[n] ==> m == n)
  }

  /** At most one vector per track and type, and exactly one job per vector and distance
      type. */
  ghost predicate VectorsOk(tracks: map<int, string>, fvs: seq<FvRow>, jobs: seq<DistanceJob>,
                            distanceTypes: seq<int>) {
    && Distinct(fvs) && Distinct(jobs)
    && (forall v :: v in fvs ==> v.track in tracks)
    && (forall j :: j in jobs <==> FvRow(j.track, j.fvtype) in fvs && j.distanceType in distanceTypes)
  }

  /** No track is added to the map twice. */
  ghost predicate MapJobsOk(tracks: map<int, string>, mapJobs: MapJobs) {
    Distinct(mapJobs.adds) && forall t :: t in mapJobs.adds ==> t in tracks
  }

  /** No file of the track is left outside the removed collection. */
  predicate AllRemoved(files: map<int, FileRow>, rows: seq<Membership>, track: int) {
    forall f :: f in files && files[f].track == track ==> Membership(REMOVED, f) in rows
  }

  /** Every vector belongs to the track of some file. */
  ghost predicate Backed(files: map<int, FileRow>, fvs: seq<FvRow>) {
    forall v :: v in fvs ==> exists f :: f in files && files[f].track == v.track
  }

  lemma AtMostOneMore(files: map<int, FileRow>, files': map<int, FileRow>, file: int)
    requires files'.Keys == files.Keys + {file}
    ensures |files'| <= |files| + 1
  {
    assert |files'| == |files'.Keys| && |files| == |files.Keys|;
    assert files.Keys + {file} == if file in files then files.Keys else files.Keys + {file};
  }

  lemma StaysBacked(files: map<int, FileRow>, fvs: seq<FvRow>, files': map<int, FileRow>, fvs': seq<FvRow>, file: int)
    requires Backed(files, fvs) && Grows(files, files') && file in files'
    requires forall v :: v in fvs' ==> v in fvs || v.track == files'[file].track
    ensures Backed(files', fvs')
  {
    forall v | v in fvs' ensures exists f :: f in files' && files'[f].track == v.track {
      if v in fvs {
        var f :| f in files && files[f].track == v.track;
        assert f in files' && files'[f] == files[f];
      }
    }
  }

  ghost predicate Grows<K, V>(before: map<K, V>, after: map<K, V>) {
    forall k :: k in before ==> k in after && after[k] == before[k]
  }

  /** Files, tracks, vectors and jobs for the map are never taken away or altered. */
  ghost predicate Kept(before: Snapshot, after: Snapshot) {
    && Grows(before.tracks, after.tracks) && Grows(before.files, after.files)
    && (forall v :: v in before.fvs ==> v in after.fvs)
    && before.mapJobs.adds <= after.mapJobs.adds
  }

  lemma VectorsKeepWithTracks(tracks: map<int, string>, more: map<int, string>, fvs: seq<FvRow>,
                              jobs: seq<DistanceJob>, distanceTypes: seq<int>)
    requires VectorsOk(tracks, fvs, jobs, distanceTypes) && Grows(tracks, more)
    ensures VectorsOk(more, fvs, jobs, distanceTypes)
  {}

  lemma MapTracksKnown(tracks: map<int, string>, mapJobs: MapJobs)
    requires MapJobsOk(tracks, mapJobs)
    ensures forall t :: t !in tracks ==> t !in mapJobs.adds
  {}

  lemma MoreIdsUsed(collections: map<string, int>, nextId: int, later: int)
    requires CollectionsOk(collections, nextId) && nextId <= later
    ensures CollectionsOk(collections, later)
  {}

  lemma TrackOfFile(tracks: map<int, string>, files: map<int, FileRow>, nextId: int, f: int)
    requires IdsUsed(tracks, files, nextId) && f in files
    ensures files[f].track in tracks
  {}

  class Database {
    const members: CollectionFiles
    const distanceTypes: seq<int>
    /** Zero stands for no limit. */
    const fileLimit: nat
    /** Whether jobs for the map are created. */
    const propagateToMap: bool
    var tracks: map<int, string>
    var files: map<int, FileRow>
    var fvs: seq<FvRow>
    var jobs: seq<DistanceJob>
    var mapJobs: MapJobs
    var collections: map<string, int>
    var nextId: int

    constructor (distanceTypes: seq<int>, fileLimit: nat, propagateToMap: bool)
      requires Distinct(distanceTypes)
      ensures this.distanceTypes == distanceTypes && this.fileLimit == fileLimit
      ensures this.propagateToMap == propagateToMap
      ensures Valid() && fresh(members) && files == map[] && fvs == [] && mapJobs == MapJobs([], [])
    {
      this.distanceTypes, this.fileLimit, this.propagateToMap := distanceTypes, fileLimit, propagateToMap;
      mapJobs := MapJobs([], []);
      members := new CollectionFiles();
      tracks, files, fvs, jobs := map[], map[], [], [];
      collections, nextId := map["_r" := REMOVED, "_d" := DEFAULT], 3;
    }

    ghost predicate Valid()
      reads this, members
    {
      && TablesOk()
      && RowsOk(members.rows, files.Keys)
    }

    ghost predicate TablesOk()
      reads this
    {
      && Distinct(distanceTypes)
      && IdsUsed(tracks, files, nextId) && OneTrackPerFingerprint(tracks) && KeysUnique(files)
      && VectorsOk(tracks, fvs, jobs, distanceTypes) && MapJobsOk(tracks, mapJobs)
      && CollectionsOk(collections, nextId)
    }

    method FindFile(q: AddRequest) returns (id: Option<int>)
      ensures id.Some? <==> Known(files, q)
      ensures id.Some? ==> id.value in files && Matches(files[id.value], q)
      ensures id.Some? <==> exists f :: f in files && q.guid != "" && files[f].guid == q.guid && files[f].hash == q.hash
                                        && files[f].uri == q.uri && files[f].externalKey == q.externalKey
    {
      if f :| f in files && Matches(files[f], q) {
        return Some(f);
      }
      return None;
    }

    method FindTrack(fingerprint: string) returns (id: Option<int>)
      ensures id.Some? ==> id.value in tracks && tracks[id.value] == fingerprint
      ensures id.None? ==> !Fingerprinted(tracks, fingerprint)
    {
      if t :| t in tracks && tracks[t] == fingerprint {
        return Some(t);
      }
      return None;
    }

    method FindOrStoreTrack(fingerprint: string) returns (track: int)
      requires TablesOk()
      modifies this`tracks, this`nextId
      ensures TablesOk() && track in tracks && tracks[track] == fingerprint
      ensures tracks == if Fingerprinted(old(tracks), fingerprint) then old(tracks)
                        else old(tracks)[track := fingerprint]
      ensures !Fingerprinted(old(tracks), fingerprint) ==> track !in old(tracks)
    {
      hide VectorsOk, KeysUnique, CollectionsOk;
      var found := FindTrack(fingerprint);
      if found.Some? {
        track := found.value;
      } else {
        track := nextId;
        VectorsKeepWithTracks(tracks, tracks[track := fingerprint], fvs, jobs, distanceTypes);
        MoreIdsUsed(collections, nextId, nextId + 1);
        tracks := tracks[track := fingerprint];
        nextId := nextId + 1;
      }
    }

    /** A new file record; None when a unique key is violated. */
    method StoreFile(q: AddRequest, track: int) returns (file: Option<int>)
      requires TablesOk() && track in tracks
      modifies this`files, this`nextId
      ensures TablesOk()
      ensures file.None? <==> Taken(old(files), q)
      ensures file.None? <==> exists f :: f in old(files) && (
                                            || (q.guid != "" && old(files)[f].guid == q.guid)
                                            || (q.externalKey != "" && old(files)[f].externalKey == q.externalKey))
      ensures file.None? ==> files == old(files)
      ensures file.Some? ==> file.value !in old(files)
      ensures file.Some? ==>
        files == old(files)[file.value := FileRow(q.hash, q.uri, q.externalKey, q.guid, track)]
    {
      hide VectorsOk, OneTrackPerFingerprint, CollectionsOk;
      if exists f :: f in files && Clash(files[f], q.externalKey, q.guid) {
        return None;
      }
      MoreIdsUsed(collections, nextId, nextId + 1);
      file := Some(nextId);
      files := files[nextId := FileRow(q.hash, q.uri, q.externalKey, q.guid, track)];
      nextId := nextId + 1;
    }

    /** The track and file records of a job; None when a unique key is violated. */
    method StoreRecords(q: AddRequest, fingerprint: string) returns (file: Option<int>, track: int)
      requires TablesOk()
      modifies this`tracks, this`files, this`nextId
      ensures TablesOk() && Grows(old(tracks), tracks) && Grows(old(files), files)
      ensures file.Some? <==> Known(old(files), q) || !Taken(old(files), q)
      ensures file.Some? ==> file.value in files && track == files[file.value].track && track in tracks
      ensures file.Some? ==> files.Keys == old(files).Keys + {file.value}
      ensures Known(old(files), q) ==> files == old(files) && tracks == old(tracks)
      ensures file.Some? && !Known(old(files), q) ==> file.value !in old(files) && tracks[track] == fingerprint
      ensures Fingerprinted(old(tracks), fingerprint) ==> tracks == old(tracks)
    {
      hide VectorsOk, OneTrackPerFingerprint, KeysUnique, CollectionsOk, Matches, Known, Taken;
      file := FindFile(q);
      if file.Some? {
        track := files[file.value].track;
        TrackOfFile(tracks, files, nextId, file.value);
      } else {
        track := FindOrStoreTrack(fingerprint);
        file := StoreFile(q, track);
      }
    }

    /** The id of a collection; a new name gets an id that no other name has. */
    method CollectionId(name: string) returns (id: int)
      requires TablesOk()
      modifies this`collections, this`nextId
      ensures TablesOk() && name in collections && id == collections[name]
      ensures collections == if name in old(collections) then old(collections) else old(collections)[name := id]
    {
      hide VectorsOk, OneTrackPerFingerprint, KeysUnique;
      if name in collections {
        id := collections[name];
      } else {
        id := nextId;
        collections := collections[name := id];
        nextId := nextId + 1;
      }
    }

    /** Stores one vector and its distance jobs. */
    method StoreVector(track: int, fvtype: int)
      requires TablesOk() && track in tracks && FvRow(track, fvtype) !in fvs
      modifies this`fvs, this`jobs
      ensures TablesOk() && fvs == old(fvs) + [FvRow(track, fvtype)]
    {
      hide IdsUsed, OneTrackPerFingerprint, KeysUnique, CollectionsOk;
      fvs := fvs + [FvRow(track, fvtype)];
      var i := 0;
      while i < |distanceTypes|
        invariant 0 <= i <= |distanceTypes| && Distinct(jobs)
        invariant fvs == old(fvs) + [FvRow(track, fvtype)]
        invariant forall j :: j in jobs <==>
          || (FvRow(j.track, j.fvtype) in old(fvs) && j.distanceType in distanceTypes)
          || (j.track == track && j.fvtype == fvtype && j.distanceType in distanceTypes[..i])
      {
        assert distanceTypes[i] !in distanceTypes[..i];
        jobs := jobs + [DistanceJob(track, fvtype, distanceTypes[i])];
        i := i + 1;
      }
      assert distanceTypes[..i] == distanceTypes;
    }

    method StoreVectors(track: int, types: seq<int>)
      requires TablesOk() && track in tracks && Distinct(types)
      requires forall f :: f in types ==> FvRow(track, f) !in fvs
      modifies this`fvs, this`jobs
      ensures TablesOk()
      ensures forall v :: v in fvs <==> v in old(fvs) || (v.track == track && v.fvtype in types)
    {
      hide IdsUsed, OneTrackPerFingerprint, KeysUnique, CollectionsOk, VectorsOk;
      var i := 0;
      while i < |types|
        invariant 0 <= i <= |types| && TablesOk()
        invariant forall v :: v in fvs <==> v in old(fvs) || (v.track == track && v.fvtype in types[..i])
        modifies this`fvs, this`jobs
      {
        assert types[i] in types && types[i] !in types[..i];
        StoreVector(track, types[i]);
        i := i + 1;
      }
      assert types[..i] == types;
    }

    /** The requested types that were extracted and that the track does not have yet. */
    method Missing(track: int, requested: seq<int>, extracted: set<int>) returns (types: seq<int>)
      requires Distinct(requested)
      ensures Distinct(types)
      ensures forall f :: f in types <==> f in requested && f in extracted && FvRow(track, f) !in fvs
    {
      types := [];
      var i := 0;
      while i < |requested|
        invariant 0 <= i <= |requested| && Distinct(types)
        invariant forall f :: f in types <==> f in requested[..i] && f in extracted && FvRow(track, f) !in fvs
      {
        assert requested[i] !in requested[..i];
        if requested[i] in extracted && FvRow(track, requested[i]) !in fvs {
          types := types + [requested[i]];
        }
        i := i + 1;
      }
      assert requested[..i] == requested;
    }

    /** The vectors of a job; false when nothing new came out although an extractor raised an
        error. */
    method StoreMissing(track: int, o: Outcome) returns (ok: bool, stored: bool)
      requires TablesOk() && track in tracks && Distinct(o.requested)
      modifies this`fvs, this`jobs
      ensures TablesOk()
      ensures forall v :: v in fvs <==>
        v in old(fvs) || (v.track == track && v.fvtype in o.requested && v.fvtype in o.extracted)
      ensures ok <==> !o.raised || exists v :: v in fvs && v !in old(fvs)
      ensures stored <==> exists f :: f in o.requested && f in o.extracted && FvRow(track, f) !in old(fvs)
    {
      hide IdsUsed, OneTrackPerFingerprint, KeysUnique, CollectionsOk, VectorsOk;
      var types := Missing(track, o.requested, o.extracted);
      StoreVectors(track, types);
      if types != [] {
        assert types[0] in types && FvRow(track, types[0]) in fvs;
      }
      stored := types != [];
      ok := stored || !o.raised;
    }

    /** The collection part of an add-file job. */
    method StoreMembership(q: AddRequest, file: int, ghost known: set<int>)
      requires TablesOk() && RowsOk(members.rows, known)
      modifies this`collections, this`nextId, members
      ensures TablesOk() && RowsOk(members.rows, known + {file}) && OnlyFile(old(members.rows), members.rows, file)
      ensures InCollections(q, file, old(members.rows))
      ensures q.collection != "" ==> q.collection in collections
      ensures Grows(old(collections), collections)
    {
      hide IdsUsed, OneTrackPerFingerprint, KeysUnique, CollectionsOk, VectorsOk, RowsOk, OnlyFile;
      var named := None;
      if q.collection != "" {
        var c := CollectionId(q.collection);
        named := Some(c);
      }
      var affected := members.FileAdded(named, file, known);
    }

    predicate LimitReached(count: nat) {
      fileLimit > 0 && count >= fileLimit
    }

    /** The work of an add-file job; when it gives up the caller rolls back.  A file limit that is
        reached refuses known files, too. */
    method AttemptAdd(q: AddRequest, o: Outcome) returns (ok: bool, file: int, track: int)
      requires Valid() && Distinct(o.requested)
      modifies this, members
      ensures ok ==> MapJobsAfterAdd(old(State()), mapJobs, track, o)
      ensures ok ==> !LimitReached(|old(files)|) && files.Keys == old(files).Keys + {file}
      ensures ok ==> Valid() && Kept(old(State()), State())
      ensures ok ==> file in files && track == files[file].track
      ensures ok ==> AddedTo(q, file, old(members.rows))
      ensures ok ==> forall v :: v in fvs <==>
        v in old(fvs) || (v.track == track && v.fvtype in o.requested && v.fvtype in o.extracted)
      ensures ok && Fingerprinted(old(tracks), o.fingerprint) ==> tracks == old(tracks)
      ensures ok && Known(old(files), q) ==> files == old(files) && tracks == old(tracks)
      ensures ok && !Known(old(files), q) ==> file !in old(files) && tracks[track] == o.fingerprint
      ensures ok ==> Known(old(files), q) || !Taken(old(files), q)
      ensures ok && o.raised ==> exists v :: v in fvs && v !in old(fvs)
      ensures !ok && !LimitReached(|old(files)|) && (Known(old(files), q) || !Taken(old(files), q)) ==> o.raised
    {
      hide IdsUsed, OneTrackPerFingerprint, KeysUnique, CollectionsOk, VectorsOk, RowsOk, OnlyFile, Known, Taken,
        Matches, Grows;
      if LimitReached(|files|) {
        return false, 0, 0;
      }
      var before := tracks;
      MapTracksKnown(before, mapJobs);
      var id;
      id, track := StoreRecords(q, o.fingerprint);
      if id.None? {
        return false, 0, 0;
      }
      file := id.value;
      var trackAdded := track !in before;
      StoreMembership(q, file, old(files).Keys);
      var stored;
      ok, stored := StoreMissing(track, o);
      if trackAdded {
        NewTrackHasNoVectors(old(State()), distanceTypes, track);
        if stored && propagateToMap {
          AddToMap(track);
        }
      }
    }

    /** A job for the map is created exactly for a new track with a vector. */
    ghost predicate MapJobsAfterAdd(before: Snapshot, after: MapJobs, track: int, o: Outcome) {
      after == if propagateToMap && track !in before.tracks && exists f :: f in o.requested && f in o.extracted
               then before.mapJobs.(adds := before.mapJobs.adds + [track])
               else before.mapJobs
    }

    static lemma NewTrackHasNoVectors(before: Snapshot, distanceTypes: seq<int>, track: int)
      requires VectorsOk(before.tracks, before.fvs, before.jobs, distanceTypes) && track !in before.tracks
      ensures forall f :: FvRow(track, f) !in before.fvs
    {
    }

    method AddToMap(track: int)
      requires TablesOk() && track in tracks && track !in mapJobs.adds
      modifies this`mapJobs
      ensures TablesOk() && mapJobs == old(mapJobs).(adds := old(mapJobs).adds + [track])
    {
      mapJobs := mapJobs.(adds := mapJobs.adds + [track]);
    }

    /** The collections of the file afterwards: those before, the default one and the named
        one, but never the removed one. */
    ghost predicate InCollections(q: AddRequest, file: int, before: seq<Membership>)
      reads this, members
    {
      forall c ::
        Membership(c, file) in members.rows <==>
        && c != REMOVED
        && (|| Membership(c, file) in before
            || c == DEFAULT
            || (q.collection != "" && q.collection in collections && collections[q.collection] == c))
    }

    ghost predicate AddedTo(q: AddRequest, file: int, before: seq<Membership>)
      reads this, members
    {
      && OnlyFile(before, members.rows, file)
      && InCollections(q, file, before)
    }

    /** An add-file job with its transaction; false stands for a rolled back job. */
    method AddFile(q: AddRequest, o: Outcome) returns (ok: bool, file: int, track: int)
      requires Valid() && Distinct(o.requested)
      modifies this, members
      ensures Valid() && Kept(old(State()), State())
      ensures !ok ==> State() == old(State())
      ensures ok ==> file in files && track == files[file].track
      ensures ok ==> AddedTo(q, file, old(members.rows))
      ensures ok ==> forall v :: v in fvs <==>
        v in old(fvs) || (v.track == track && v.fvtype in o.requested && v.fvtype in o.extracted)
      ensures ok && Fingerprinted(old(tracks), o.fingerprint) ==> tracks == old(tracks)
      ensures ok && Known(old(files), q) ==> files == old(files) && tracks == old(tracks)
      ensures ok && !Known(old(files), q) ==> file !in old(files) && tracks[track] == o.fingerprint
      ensures ok ==> o.moved && (Known(old(files), q) || !Taken(old(files), q))
      ensures ok && o.raised ==> exists v :: v in fvs && v !in old(fvs)
      ensures !ok && o.moved && !o.raised ==>
        (fileLimit > 0 && |old(files)| >= fileLimit) || (Taken(old(files), q) && !Known(old(files), q))
      ensures ok ==> (fileLimit == 0 || |old(files)| < fileLimit) && files.Keys == old(files).Keys + {file}
      ensures ok ==> MapJobsAfterAdd(old(State()), mapJobs, track, o)
    {
      hide IdsUsed, OneTrackPerFingerprint, KeysUnique, CollectionsOk, VectorsOk, RowsOk, OnlyFile, Known, Taken,
        Matches;
      var saved := State();
      ok, file, track := AttemptAdd(q, o);
      if !ok || !o.moved {
        Rollback(saved);
        ok := false;
      }
    }

    /** A delete-file job with its transaction: one named collection, or all if the name is
        empty.  The foreign key refuses a file that does not exist. */
    method DeleteFile(file: int, collection: string) returns (ok: bool)
      requires Valid()
      modifies members, this`mapJobs
      ensures Valid() && (ok <==> file in files)
      ensures !ok ==> members.rows == old(members.rows) && mapJobs == old(mapJobs)
      ensures ok ==> MapJobsAfterDelete(old(mapJobs), file)
      ensures OnlyFile(old(members.rows), members.rows, file)
      ensures ok ==> forall d :: d != REMOVED ==>
        (Membership(d, file) in members.rows <==>
         && Membership(d, file) in old(members.rows)
         && collection != "" && (collection in collections ==> collections[collection] != d))
    {
      if file !in files {
        return false;
      }
      hide TablesOk;
      if collection == "" {
        members.FileDeleted(None, file, files.Keys);
      } else if collection in collections {
        members.FileDeleted(Some(collections[collection]), file, files.Keys);
      } else {
        members.EnsureReserved(REMOVED, true, file);
        assert FileOk(old(members.rows), file);
      }
      if propagateToMap && AllRemoved(files, members.rows, files[file].track) {
        DeleteFromMap(files[file].track);
      }
      ok := true;
    }

    /** A job for the map is created exactly when the track of the file has no other file left. */
    ghost predicate MapJobsAfterDelete(before: MapJobs, file: int)
      requires file in files
      reads this, members
    {
      mapJobs == if propagateToMap && (forall f :: f in files && files[f].track == files[file].track ==>
                                         Membership(REMOVED, f) in members.rows)
                 then before.(deletes := before.deletes + [files[file].track])
                 else before
    }

    method DeleteFromMap(track: int)
      modifies this`mapJobs
      ensures mapJobs == old(mapJobs).(deletes := old(mapJobs).deletes + [track])
      ensures old(TablesOk()) ==> TablesOk()
    {
      mapJobs := mapJobs.(deletes := mapJobs.deletes + [track]);
    }


    function State(): Snapshot
      reads this, members
    {
      Snapshot(tracks, files, fvs, jobs, mapJobs, collections, members.rows, nextId)
    }

    method Rollback(s: Snapshot)
      modifies this, members
      ensures State() == s
    {
      tracks, files, fvs, jobs, mapJobs := s.tracks, s.files, s.fvs, s.jobs, s.mapJobs;
      collections, nextId := s.collections, s.nextId;
      members.rows := s.rows;
    }
  }

  datatype Job = Add(request: AddRequest, outcome: Outcome) | Delete(file: int, collection: string)

  method RunJob(db: Database, job: Job)
    requires db.Valid() && Backed(db.files, db.fvs) && (job.Add? ==> Distinct(job.outcome.requested))
    modifies db, db.members
    ensures db.Valid() && Kept(old(db.State()), db.State()) && Backed(db.files, db.fvs)
    ensures db.fileLimit > 0 && old(|db.files|) <= db.fileLimit ==> |db.files| <= db.fileLimit
  {
    hide Database.TablesOk, RowsOk, Backed;
    match job {
      case Add(q, o) =>
        ghost var files, fvs := db.files, db.fvs;
        var ok, file, track := db.AddFile(q, o);
        if ok {
          StaysBacked(files, fvs, db.files, db.fvs, file);
          AtMostOneMore(files, db.files, file);
        }
      case Delete(file, collection) =>
        var ok := db.DeleteFile(file, collection);
    }
  }

  lemma KeptTwice(a: Snapshot, b: Snapshot, c: Snapshot)
    requires Kept(a, b) && Kept(b, c)
    ensures Kept(a, c)
  {
  }

  lemma KeptItself(a: Snapshot)
    ensures Kept(a, a)
  {
  }

  /** Any run of add-file and delete-file jobs, failed ones rolled back. */
  method RunJobs(db: Database, work: seq<Job>)
    requires db.Valid() && Backed(db.files, db.fvs)
    requires forall j :: j in work && j.Add? ==> Distinct(j.outcome.requested)
    modifies db, db.members
    ensures db.Valid() && Kept(old(db.State()), db.State()) && Backed(db.files, db.fvs)
    ensures db.fileLimit > 0 && old(|db.files|) <= db.fileLimit ==> |db.files| <= db.fileLimit
  {
    hide Database.TablesOk, RowsOk, Backed, Kept;
    var i := 0;
    KeptItself(db.State());
    while i < |work|
      invariant 0 <= i <= |work|
      invariant db.Valid() && Kept(old(db.State()), db.State()) && Backed(db.files, db.fvs)
      invariant db.fileLimit > 0 && old(|db.files|) <= db.fileLimit ==> |db.files| <= db.fileLimit
    {
      ghost var before := db.State();
      RunJob(db, work[i]);
      KeptTwice(old(db.State()), before, db.State());
      i := i + 1;
    }
  }
}
