/** The daemon's cache of each track's smallest distances: how fetches, reverse rows and forward rows
    change it, and why a cached list may stand for the table although it is cut, left short and
    reloaded. */
module Cache {
  import opened Ordering
  import opened Distances
  import opened FileJoin
  import opened Store
  import opened Meetings
  import opened TopkIndex

  // ------------------------------------------------------------ sound caches

  function ListOf(topDs: map<int, seq<real>>, t: int): seq<real> {
    if t in topDs then topDs[t] else []
  }

  /** A cached list is sorted and made of values that are recorded for its track. */
  predicate CacheOk(files: Files, topDs: map<int, seq<real>>, rows: seq<Row>, kind: Kind) {
    AllSorted(topDs) && Recorded(files, topDs, rows, kind)
  }

  predicate AllSorted(topDs: map<int, seq<real>>) {
    forall t :: t in topDs ==> Sorted(RealLeq, topDs[t])
  }

  predicate Recorded(files: Files, topDs: map<int, seq<real>>, rows: seq<Row>, kind: Kind) {
    forall t :: t in topDs ==> multiset(Map(SixDecimals, topDs[t])) <= multiset(Values(files, rows, kind, t))
  }

  lemma EmptyCache(files: Files, rows: seq<Row>, kind: Kind)
    ensures CacheOk(files, map[], rows, kind)
  {
  }

  lemma CachedList(files: Files, topDs: map<int, seq<real>>, rows: seq<Row>, kind: Kind, t: int)
    requires CacheOk(files, topDs, rows, kind)
    ensures ListOk(ListOf(topDs, t), Values(files, rows, kind, t))
  {
    assert Map(SixDecimals, []) == [];
  }

  lemma CacheParts(files: Files, topDs: map<int, seq<real>>, rows: seq<Row>, kind: Kind)
    requires CacheOk(files, topDs, rows, kind)
    ensures Recorded(files, topDs, rows, kind)
  {
  }

  lemma ListMentioned(files: Files, topDs: map<int, seq<real>>, rows: seq<Row>, kind: Kind, t: int)
    requires CacheOk(files, topDs, rows, kind)
    ensures CacheOk(files, topDs[t := ListOf(topDs, t)], rows, kind)
  {
    CachedList(files, topDs, rows, kind, t);
    CacheWithList(files, topDs, rows, kind, t, ListOf(topDs, t));
  }

  lemma CacheWithList(files: Files, topDs: map<int, seq<real>>, rows: seq<Row>, kind: Kind, b: int, list: seq<real>)
    requires CacheOk(files, topDs, rows, kind) && ListOk(list, Values(files, rows, kind, b))
    ensures CacheOk(files, topDs[b := list], rows, kind)
  {
  }

  /** Recording one more row keeps every cached list inside its track's recorded values. */
  lemma CacheWithMoreRows(files: Files, topDs: map<int, seq<real>>, rows: seq<Row>, more: seq<Row>, kind: Kind)
    requires CacheOk(files, topDs, rows, kind)
    ensures CacheOk(files, topDs, rows + more, kind)
  {
    forall t | t in topDs ensures ListOk(topDs[t], Values(files, rows + more, kind, t)) {
      ValuesConcat(files, rows, more, kind, t);
      ListOkMore(topDs[t], Values(files, rows, kind, t), Values(files, more, kind, t));
    }
  }

  // ------------------------------------------------------------ one list

  function FirstAbove(list: seq<real>, d: real): (p: nat)
    ensures p <= |list|
    ensures forall i :: 0 <= i < p ==> list[i] <= d
    ensures p < |list| ==> d < list[p]
  {
    if list == [] || d < list[0] then 0 else 1 + FirstAbove(list[1..], d)
  }

  /** The insertion loop: a value that is not below any kept value is not kept. */
  function Inserted(list: seq<real>, d: real): seq<real> {
    var p := FirstAbove(list, d);
    if p < |list| then list[..p] + [d] + list[p..] else list
  }

  /** The cached list and the global counter of removable values after a new distance
      has been recorded.  The list may outgrow k while the counter is zero. */
  function Offered(list: seq<real>, safe: nat, k: nat, d: real): (seq<real>, nat) {
    if list == [] then ([d], safe)
    else
      var list' := Inserted(list, d);
      var safe' := if 0 < FirstAbove(list, d) < |list| then safe + 1 else safe;
      if |list'| > k && safe' > 0 then (list'[..|list'| - 1], safe' - 1) else (list', safe')
  }

  predicate Skipped(list: seq<real>, k: nat, d: real) {
    list != [] && k <= |list| && list[|list| - 1] <= d
  }

  /** A sorted list that does not refuse a distance takes it in at its place, unless no kept value is
      above it; the largest value goes when the list is full and a value may be removed.  The counter
      grows by a value that is put between two kept ones and falls by one that is dropped. */
  lemma OfferedIsFirsts(list: seq<real>, safe: nat, k: nat, d: real)
    requires list != [] && Sorted(RealLeq, list) && !Skipped(list, k, d)
    ensures var above, between := d < list[|list| - 1], list[0] <= d < list[|list| - 1];
      var room := safe + if between then 1 else 0;
      var drops := above && |list| >= k && room > 0;
      && Offered(list, safe, k, d).0 == TopK(RealLeq, if above && !drops then |list| + 1 else |list|, list + [d])
      && Offered(list, safe, k, d).1 == room - if drops then 1 else 0
  {
    hide Sort, Sorted;
    RealOrder();
    FirstAboveEnds(list, d);
    InsertedIsSorted(list, d);
    SortAll(list + [d]);
  }

  lemma FirstAboveEnds(list: seq<real>, d: real)
    requires list != [] && Sorted(RealLeq, list)
    ensures FirstAbove(list, d) > 0 <==> list[0] <= d
    ensures FirstAbove(list, d) < |list| <==> d < list[|list| - 1]
  {
    var p := FirstAbove(list, d);
    assert p < |list| - 1 ==> RealLeq(list[p], list[|list| - 1]);
  }

  lemma SortAll(s: seq<real>)
    ensures |Sort(RealLeq, s)| == |s|
  {
    RealOrder();
    SortSorts(RealLeq, s);
  }

  /** The insertion loop puts a value below the last one at its place. */
  lemma InsertedIsSorted(list: seq<real>, d: real)
    requires list != [] && Sorted(RealLeq, list)
    ensures d < list[|list| - 1] ==> Inserted(list, d) == Sort(RealLeq, list + [d])
    ensures d >= list[|list| - 1] ==> Inserted(list, d) == list && Sort(RealLeq, list + [d]) == list + [d]
  {
    hide Sort, Sorted, FirstAbove;
    FirstAboveEnds(list, d);
    var p := FirstAbove(list, d);
    if p < |list| {
      PlacedIsSorted(list, p, d);
    } else {
      AppendedIsSorted(list, d);
    }
  }

  lemma PlacedIsSorted(list: seq<real>, p: nat, d: real)
    requires Sorted(RealLeq, list) && p < |list| && d < list[p]
    requires forall i :: 0 <= i < p ==> list[i] <= d
    ensures list[..p] + [d] + list[p..] == Sort(RealLeq, list + [d])
  {
    hide Sort, Sorted;
    RealOrder();
    InsertedSorted(list, p, d);
    assert multiset(list[..p] + [d] + list[p..]) == multiset(list + [d]) by {
      assert list == list[..p] + list[p..];
    }
    SortIsCanonical(RealLeq, list + [d], list[..p] + [d] + list[p..]);
  }

  lemma AppendedIsSorted(list: seq<real>, d: real)
    requires Sorted(RealLeq, list) && forall i :: 0 <= i < |list| ==> list[i] <= d
    ensures list + [d] == Sort(RealLeq, list + [d])
  {
    hide Sort;
    RealOrder();
    SortIsCanonical(RealLeq, list + [d], list + [d]);
  }

  lemma OfferedKeepsList(list: seq<real>, safe: nat, k: nat, d: real, recorded: seq<real>)
    requires ListOk(list, recorded)
    ensures ListOk(Offered(list, safe, k, d).0, recorded + [SixDecimals(d)])
  {
    if list == [] {
      assert Map(SixDecimals, [d]) == [SixDecimals(d)];
    } else {
      InsertedKeepsList(list, d, recorded);
      ShorterList(Inserted(list, d), recorded + [SixDecimals(d)]);
    }
  }

  lemma InsertedKeepsList(list: seq<real>, d: real, recorded: seq<real>)
    requires ListOk(list, recorded)
    ensures ListOk(Inserted(list, d), recorded + [SixDecimals(d)])
    ensures list != [] ==> Inserted(list, d) != []
  {
    var p := FirstAbove(list, d);
    if p < |list| {
      InsertedList(list, p, d, recorded);
    } else {
      ListOkMore(list, recorded, [SixDecimals(d)]);
    }
  }

  lemma InsertedList(list: seq<real>, p: nat, d: real, recorded: seq<real>)
    requires ListOk(list, recorded) && p < |list|
    requires forall i :: 0 <= i < p ==> list[i] <= d
    requires d < list[p]
    ensures ListOk(list[..p] + [d] + list[p..], recorded + [SixDecimals(d)])
  {
    InsertedSorted(list, p, d);
    InsertedValues(list, p, d);
  }

  lemma InsertedSorted(list: seq<real>, p: nat, d: real)
    requires Sorted(RealLeq, list) && p < |list|
    requires forall i :: 0 <= i < p ==> list[i] <= d
    requires d < list[p]
    ensures Sorted(RealLeq, list[..p] + [d] + list[p..])
  {
    var list' := list[..p] + [d] + list[p..];
    forall i, j | 0 <= i < j < |list'| ensures RealLeq(list'[i], list'[j]) {
      var i', j' := if i < p then i else i - 1, if j < p then j else j - 1;
      assert i != p && j != p ==> RealLeq(list[i'], list[j']);
      assert i == p ==> j' == p || RealLeq(list[p], list[j']);
    }
  }

  lemma InsertedValues(list: seq<real>, p: nat, d: real)
    requires p <= |list|
    ensures multiset(Map(SixDecimals, list[..p] + [d] + list[p..]))
         == multiset(Map(SixDecimals, list)) + multiset{SixDecimals(d)}
  {
    hide SixDecimals;
    var m := Map(SixDecimals, list);
    assert Map(SixDecimals, list[..p] + [d] + list[p..]) == m[..p] + [SixDecimals(d)] + m[p..];
    assert m == m[..p] + m[p..];
  }

  lemma ShorterList(list: seq<real>, recorded: seq<real>)
    requires ListOk(list, recorded) && list != []
    ensures ListOk(list[..|list| - 1], recorded)
  {
    var m := Map(SixDecimals, list);
    assert Map(SixDecimals, list[..|list| - 1]) == m[..|m| - 1];
    assert m == m[..|m| - 1] + [m[|m| - 1]];
  }

  lemma RowOfValue(files: Files, rows: seq<Row>, kind: Kind, t: int, v: real) returns (r: Row)
    requires v in Values(files, rows, kind, t)
    ensures r in rows && r.kind == kind && r.a == t && r.value == v
  {
    var n := JoinValue(files, Neighbours(rows, kind, t), v);
    var i :| 0 <= i < |Neighbours(rows, kind, t)| && Neighbours(rows, kind, t)[i] == n;
    NeighbourIsRow(rows, kind, t, i);
    r := Row(kind, t, n.track, v);
  }

  /** The list that a reload fetches from committed rows. */
  lemma ReloadedList(files: Files, rows: seq<Row>, kind: Kind, t: int, k: nat)
    requires forall r :: r in rows ==> SixDecimals(r.value) == r.value
    ensures ListOk(TopK(RealLeq, k, Values(files, rows, kind, t)), Values(files, rows, kind, t))
  {
    RealOrder();
    var list := TopK(RealLeq, k, Values(files, rows, kind, t));
    TopKIsPart(RealLeq, k, Values(files, rows, kind, t));
    hide TopK, Values, SixDecimals;
    forall i | 0 <= i < |list| ensures SixDecimals(list[i]) == list[i] {
      assert list[i] in multiset(list);
      assert list[i] in Values(files, rows, kind, t);
      var r := RowOfValue(files, rows, kind, t, list[i]);
    }
    assert Map(SixDecimals, list) == list;
  }

  lemma OfferedKeepsCache(files: Files, topDs: map<int, seq<real>>, rows: seq<Row>, kind: Kind, b: int, c: int,
                          safe: nat, k: nat, d: real)
    requires CacheOk(files, topDs, rows, kind) && c in files
    ensures CacheOk(files, topDs[b := Offered(ListOf(topDs, b), safe, k, d).0],
                    rows + [Row(kind, b, c, SixDecimals(d))], kind)
  {
    var row := Row(kind, b, c, SixDecimals(d));
    CacheWithMoreRows(files, topDs, rows, [row], kind);
    var before, list := Values(files, rows, kind, b), Offered(ListOf(topDs, b), safe, k, d).0;
    assert ListOk(ListOf(topDs, b), before) by {
      assert Map(SixDecimals, []) == [];
    }
    OfferedKeepsList(ListOf(topDs, b), safe, k, d, before);
    hide Offered, Values, SixDecimals, CacheOk, ListOk;
    ValuesAppend(files, rows, row, kind, b);
    var copies := Repeat(files[c], row.value);
    ListOkMore(list, before + [row.value], copies[1..]);
    assert before + copies == before + [row.value] + copies[1..];
    CacheWithList(files, topDs, rows + [row], kind, b, list);
  }

  // ------------------------------------------------------------ fetches

  /** The cache after a fetch of the feature vector of track t: an absent or empty list is
      reloaded, and so is the list of a track that is not buffered, unless the table is
      assumed to start empty. */
  function Fetched(topDs: map<int, seq<real>>, t: int, buffered: bool, initialRun: bool, fromDb: seq<real>):
    map<int, seq<real>>
  {
    if !initialRun && (!buffered || ListOf(topDs, t) == []) then topDs[t := fromDb]
    else if buffered then topDs[t := ListOf(topDs, t)]
    else topDs
  }

  lemma FetchedKeepsCache(files: Files, topDs: map<int, seq<real>>, committed: seq<Row>, queued: seq<Row>, kind: Kind,
                          t: int, buffered: bool, initialRun: bool, k: nat)
    requires CacheOk(files, topDs, committed + queued, kind)
    requires forall r :: r in committed ==> SixDecimals(r.value) == r.value
    ensures CacheOk(files, Fetched(topDs, t, buffered, initialRun, TopK(RealLeq, k, Values(files, committed, kind, t))),
                    committed + queued, kind)
  {
    ReloadedList(files, committed, kind, t, k);
    ValuesConcat(files, committed, queued, kind, t);
    ListOkMore(TopK(RealLeq, k, Values(files, committed, kind, t)), Values(files, committed, kind, t),
               Values(files, queued, kind, t));
    assert Map(SixDecimals, []) == [];
  }

  // ------------------------------------------------------------ the loop

  /** What a fetch finds: the file table of that moment, and whether the vector is in memory. */
  datatype Moment = Moment(files: Files, buffered: bool)

  /** The file table only grows, from one fetch to the next. */
  ghost predicate Growing(files: Files, moments: seq<Moment>, files': Files) {
    if moments == [] then files <= files'
    else
      var last := moments[|moments| - 1];
      last.files <= files' && Growing(files, moments[..|moments| - 1], last.files)
  }

  /** What the calculation loop changes: the cache, its counter and the queue. */
  datatype LoopState = LoopState(cache: map<int, seq<real>>, safe: nat, queue: seq<Row>)

  /** The reverse row from track b to track c at distance d is recorded and cached, or skipped. */
  function Decided(s: LoopState, kind: Kind, b: int, c: int, d: real, k: nat): LoopState {
    var list := ListOf(s.cache, b);
    if Skipped(list, k, d) then s
    else LoopState(s.cache[b := Offered(list, s.safe, k, d).0], Offered(list, s.safe, k, d).1,
                   s.queue + [Row(kind, b, c, d)])
  }

  /** One lower track b is met by the job of track c at distance d. */
  function Met(s: LoopState, kind: Kind, b: int, c: int, d: real, now: Moment, initialRun: bool, k: nat,
               committed: seq<Row>): LoopState
  {
    var fromDb := TopK(RealLeq, k, Values(now.files, committed, kind, b));
    Decided(s.(cache := Fetched(s.cache, b, now.buffered, initialRun, fromDb)), kind, b, c, d, k)
  }

  /** All tracks bs are met in turn. */
  function MetAll(s: LoopState, metric: Metric, kind: Kind, bs: seq<int>, c: int, moments: seq<Moment>,
                  initialRun: bool, k: nat, committed: seq<Row>): LoopState
    requires |moments| == |bs|
  {
    if bs == [] then s
    else
      var n, b := |bs| - 1, bs[|bs| - 1];
      Met(MetAll(s, metric, kind, bs[..n], c, moments[..n], initialRun, k, committed),
          kind, b, c, metric(kind, c, b), moments[n], initialRun, k, committed)
  }

  /** The state keeps the promise of the table in the middle of a job, and the cache is sound. */
  ghost predicate LoopOk(files: Files, s: LoopState, committed: seq<Row>, metric: Metric, k: nat, met: seq<Meeting>,
                         kind: Kind, c: int, seen: seq<int>)
  {
    && MidJobOk(files, committed + Printed(s.queue), metric, k, met, kind, c, seen)
    && CacheOk(files, s.cache, committed + Printed(s.queue), kind)
  }

  lemma DecidedKeepsPromise(files: Files, s: LoopState, committed: seq<Row>, metric: Metric, k: nat, met: seq<Meeting>,
                            kind: Kind, c: int, seen: seq<int>, b: int)
    requires LoopOk(files, s, committed, metric, k, met, kind, c, seen)
    requires k >= 1 && b !in seen && b < c && b in files
    ensures LoopOk(files, Decided(s, kind, b, c, metric(kind, c, b), k), committed, metric, k, met, kind, c, seen + [b])
  {
    assert c in files by {
      assert CanMeet(files, met, kind, c, seen);
    }
    hide MidJobOk, Offered, CacheOk, ListOk;
    var rows, list, d := committed + Printed(s.queue), ListOf(s.cache, b), metric(kind, c, b);
    if Skipped(list, k, d) {
      CachedList(files, s.cache, rows, kind, b);
      ReverseRowSkipped(files, rows, metric, k, met, kind, c, seen, b, list);
    } else {
      var row := Row(kind, b, c, d);
      assert committed + Printed(s.queue + [row]) == rows + [Row(kind, b, c, SixDecimals(d))];
      ReverseRowRecorded(files, rows, metric, k, met, kind, c, seen, b);
      OfferedKeepsCache(files, s.cache, rows, kind, b, c, s.safe, k, d);
    }
  }

  lemma MetKeepsPromise(files: Files, s: LoopState, committed: seq<Row>, metric: Metric, k: nat, met: seq<Meeting>,
                        kind: Kind, c: int, seen: seq<int>, b: int, buffered: bool, initialRun: bool)
    requires LoopOk(files, s, committed, metric, k, met, kind, c, seen)
    requires forall r :: r in committed ==> SixDecimals(r.value) == r.value
    requires k >= 1 && b !in seen && b < c && b in files
    ensures LoopOk(files, Met(s, kind, b, c, metric(kind, c, b), Moment(files, buffered), initialRun, k, committed),
                   committed, metric, k, met, kind, c, seen + [b])
  {
    hide MidJobOk, CacheOk, Decided, Fetched;
    var fromDb := TopK(RealLeq, k, Values(files, committed, kind, b));
    FetchedKeepsCache(files, s.cache, committed, Printed(s.queue), kind, b, buffered, initialRun, k);
    DecidedKeepsPromise(files, s.(cache := Fetched(s.cache, b, buffered, initialRun, fromDb)),
                        committed, metric, k, met, kind, c, seen, b);
  }

  /** Files that other programs store in between do no harm. */
  lemma {:induction false} LoopWithFiles(files: Files, more: Files, s: LoopState, committed: seq<Row>, metric: Metric,
                                         k: nat, met: seq<Meeting>, kind: Kind, c: int, seen: seq<int>)
    requires LoopOk(files, s, committed, metric, k, met, kind, c, seen)
    ensures LoopOk(files + more, s, committed, metric, k, met, kind, c, seen)
    decreases |more|
  {
    hide MidJobOk, CacheOk;
    if more != multiset{} {
      var t := AnyOf(more);
      var rest := more - multiset{t};
      assert more == rest + multiset{t} && files + more == (files + multiset{t}) + rest;
      MidJobWithFile(files, committed + Printed(s.queue), metric, k, met, kind, c, seen, t);
      CacheWithFile(files, s.cache, committed + Printed(s.queue), kind, t);
      LoopWithFiles(files + multiset{t}, rest, s, committed, metric, k, met, kind, c, seen);
    } else {
      assert files + more == files;
    }
  }

  lemma AnyOf<T>(more: multiset<T>) returns (t: T)
    requires more != multiset{}
    ensures t in more
  {
    t :| t in more;
  }

  lemma LoopLater(files: Files, files': Files, s: LoopState, committed: seq<Row>, metric: Metric, k: nat,
                  met: seq<Meeting>, kind: Kind, c: int, seen: seq<int>)
    requires LoopOk(files, s, committed, metric, k, met, kind, c, seen) && files <= files'
    ensures LoopOk(files', s, committed, metric, k, met, kind, c, seen)
  {
    hide LoopOk;
    LoopWithFiles(files, files' - files, s, committed, metric, k, met, kind, c, seen);
    assert files + (files' - files) == files';
  }

  /** Meeting any lower tracks keeps every answer right and the cache sound, whichever vectors were
      in memory and whatever files were stored meanwhile. */
  lemma {:induction false} MetAllKeepsPromise(files: Files, s: LoopState, committed: seq<Row>, metric: Metric, k: nat,
                                              met: seq<Meeting>, kind: Kind, c: int, bs: seq<int>,
                                              moments: seq<Moment>, files': Files, initialRun: bool)
    requires LoopOk(files, s, committed, metric, k, met, kind, c, [])
    requires |moments| == |bs| && Growing(files, moments, files')
    requires forall r :: r in committed ==> SixDecimals(r.value) == r.value
    requires k >= 1 && Distinct(bs) && forall b :: b in bs ==> b < c && b in files
    ensures files <= files'
    ensures LoopOk(files', MetAll(s, metric, kind, bs, c, moments, initialRun, k, committed), committed,
                   metric, k, met, kind, c, bs)
  {
    hide LoopOk, Met;
    if bs == [] {
      LoopLater(files, files', s, committed, metric, k, met, kind, c, []);
    } else {
      var n, b := |bs| - 1, bs[|bs| - 1];
      assert bs == bs[..n] + [b] && b in bs && b !in bs[..n] && forall x :: x in bs[..n] ==> x in bs;
      var now := moments[n];
      MetAllKeepsPromise(files, s, committed, metric, k, met, kind, c, bs[..n], moments[..n], now.files, initialRun);
      var t := MetAll(s, metric, kind, bs[..n], c, moments[..n], initialRun, k, committed);
      MetKeepsPromise(now.files, t, committed, metric, k, met, kind, c, bs[..n], b, now.buffered, initialRun);
      var u := Met(t, kind, b, c, metric(kind, c, b), now, initialRun, k, committed);
      LoopLater(now.files, files', u, committed, metric, k, met, kind, c, bs);
    }
  }

  /** The calculation loop goes one track further. */
  lemma LoopStep(s: LoopState, metric: Metric, kind: Kind, ts: seq<int>, i: nat, c: int, files: Files,
                 moments: seq<Moment>, now: Moment, initialRun: bool, k: nat, committed: seq<Row>)
    requires i < |ts| && |moments| == |Below(ts[..i], c)|
    ensures Growing(files, moments, now.files) ==> Growing(files, moments + [now], now.files)
    ensures var seen, b := Below(ts[..i], c), ts[i];
      if c > b then
        && Below(ts[..i + 1], c) == seen + [b]
        && |moments + [now]| == |seen + [b]|
        && Candidates(metric, kind, c, seen + [b])
             == Candidates(metric, kind, c, seen) + [Neighbour(metric(kind, c, b), b, -1)]
        && MetAll(s, metric, kind, seen + [b], c, moments + [now], initialRun, k, committed)
           == Met(MetAll(s, metric, kind, seen, c, moments, initialRun, k, committed),
                  kind, b, c, metric(kind, c, b), now, initialRun, k, committed)
      else Below(ts[..i + 1], c) == seen
  {
    hide MetAll, Met;
    var seen, b := Below(ts[..i], c), ts[i];
    assert ts[..i + 1][..i] == ts[..i];
    assert (moments + [now])[..|moments|] == moments;
    if c > b {
      MetAllStep(s, metric, kind, seen, b, c, moments, now, initialRun, k, committed);
      CandidatesStep(metric, kind, c, seen, b);
    }
  }

  lemma MetAllStep(s: LoopState, metric: Metric, kind: Kind, seen: seq<int>, b: int, c: int, moments: seq<Moment>,
                   now: Moment, initialRun: bool, k: nat, committed: seq<Row>)
    requires |moments| == |seen|
    ensures MetAll(s, metric, kind, seen + [b], c, moments + [now], initialRun, k, committed)
         == Met(MetAll(s, metric, kind, seen, c, moments, initialRun, k, committed),
                kind, b, c, metric(kind, c, b), now, initialRun, k, committed)
  {
    hide Met;
    assert (seen + [b])[..|seen|] == seen && (moments + [now])[..|seen|] == moments;
  }

  lemma CandidatesStep(metric: Metric, kind: Kind, c: int, seen: seq<int>, b: int)
    ensures Candidates(metric, kind, c, seen + [b])
         == Candidates(metric, kind, c, seen) + [Neighbour(metric(kind, c, b), b, -1)]
  {
    assert (seen + [b])[..|seen|] == seen;
  }

  lemma {:induction false} GrowingMore(files: Files, moments: seq<Moment>, now: Files, later: Files)
    requires Growing(files, moments, now) && now <= later
    ensures Growing(files, moments, later) && files <= now
  {
    if moments != [] {
      var n := |moments| - 1;
      GrowingMore(files, moments[..n], moments[n].files, moments[n].files);
    }
  }

  /** A job starts with an empty queue. */
  lemma StartOfLoop(files: Files, committed: seq<Row>, metric: Metric, k: nat, met: seq<Meeting>, kind: Kind, c: int,
                    cache: map<int, seq<real>>, safe: nat)
    requires IndexOk(files, committed, metric, k, met) && CacheOk(files, cache, committed, kind)
    requires Unmet(met, kind, c) && c in files
    ensures LoopOk(files, LoopState(cache, safe, []), committed, metric, k, met, kind, c, [])
    ensures forall r :: r in committed ==> SixDecimals(r.value) == r.value
  {
    TrueRowsArePrinted(committed, metric, met);
    hide CacheOk, MidJobOk;
    assert committed + Printed([]) == committed;
    StartOfJob(files, committed, metric, k, met, kind, c);
  }

  lemma TrueRowsArePrinted(rows: seq<Row>, metric: Metric, met: seq<Meeting>)
    requires RowsTrue(rows, metric, met)
    ensures forall r :: r in rows ==> SixDecimals(r.value) == r.value
  {
    forall r | r in rows ensures SixDecimals(r.value) == r.value {
      SixDecimalsIdempotent(PairDistance(metric, r.kind, r.a, r.b));
    }
  }

  // ------------------------------------------------------------ the forward rows

  /** The k nearest are pushed behind whatever the cached list of the job's track holds. */
  function WithForward(topDs: map<int, seq<real>>, c: int, nearest: seq<Neighbour>): map<int, seq<real>> {
    if nearest == [] then topDs else topDs[c := ListOf(topDs, c) + Map(NeighbourDistance, nearest)]
  }

  /** The forward rows keep all values recorded, and they keep the cache sound if and only if the old
      list and the new distances are in order, as they are when the old list is empty. */
  lemma ForwardSoundIff(files: Files, topDs: map<int, seq<real>>, rows: seq<Row>, kind: Kind, c: int,
                        nearest: seq<Neighbour>)
    requires CacheOk(files, topDs, rows, kind) && AllFound(files, nearest)
    ensures Recorded(files, WithForward(topDs, c, nearest), rows + Printed(ForwardRows(kind, c, nearest)), kind)
    ensures CacheOk(files, WithForward(topDs, c, nearest), rows + Printed(ForwardRows(kind, c, nearest)), kind)
       <==> Sorted(RealLeq, ListOf(topDs, c) + Map(NeighbourDistance, nearest))
  {
    hide Recorded, AllSorted, WithForward, ForwardRows, Printed;
    ForwardRecorded(files, topDs, rows, kind, c, nearest);
    ForwardSortedIff(topDs, c, nearest);
  }

  lemma ForwardRecorded(files: Files, topDs: map<int, seq<real>>, rows: seq<Row>, kind: Kind, c: int,
                        nearest: seq<Neighbour>)
    requires Recorded(files, topDs, rows, kind) && AllFound(files, nearest)
    ensures Recorded(files, WithForward(topDs, c, nearest), rows + Printed(ForwardRows(kind, c, nearest)), kind)
  {
    hide Values, SixDecimals, Joined, Printed, ForwardRows;
    var topDs', rows' := WithForward(topDs, c, nearest), rows + Printed(ForwardRows(kind, c, nearest));
    var list := ListOf(topDs, c);
    assert Map(SixDecimals, []) == [];
    forall t | t in topDs' ensures multiset(Map(SixDecimals, topDs'[t])) <= multiset(Values(files, rows', kind, t)) {
      ForwardRowsAdded(files, rows, kind, c, nearest, kind, t);
      if t == c {
        ForwardList(files, list, nearest, Values(files, rows, kind, c));
      }
    }
  }

  lemma EmptySorted()
    ensures Sorted(RealLeq, [])
  {
  }

  lemma ForwardSortedIff(topDs: map<int, seq<real>>, c: int, nearest: seq<Neighbour>)
    requires AllSorted(topDs)
    ensures AllSorted(WithForward(topDs, c, nearest))
       <==> Sorted(RealLeq, ListOf(topDs, c) + Map(NeighbourDistance, nearest))
  {
    hide Sorted;
    var topDs', list := WithForward(topDs, c, nearest), ListOf(topDs, c) + Map(NeighbourDistance, nearest);
    if nearest == [] {
      assert list == ListOf(topDs, c);
      EmptySorted();
    } else {
      assert c in topDs' && topDs'[c] == list;
    }
  }

  /** The new distances themselves are in order. */
  lemma FirstsSorted(metric: Metric, kind: Kind, c: int, seen: seq<int>, k: nat)
    ensures Sorted(RealLeq, [] + Map(NeighbourDistance, TopK(NeighbourLeq, k, Candidates(metric, kind, c, seen))))
  {
    NeighbourOrder();
    TopKIsPart(NeighbourLeq, k, Candidates(metric, kind, c, seen));
    var nearest := TopK(NeighbourLeq, k, Candidates(metric, kind, c, seen));
    forall i, j | 0 <= i < j < |nearest| ensures nearest[i].d <= nearest[j].d {
      assert NeighbourLeq(nearest[i], nearest[j]);
    }
  }

  lemma ForwardList(files: Files, list: seq<real>, nearest: seq<Neighbour>, recorded: seq<real>)
    requires multiset(Map(SixDecimals, list)) <= multiset(recorded) && AllFound(files, nearest)
    ensures multiset(Map(SixDecimals, list + Map(NeighbourDistance, nearest)))
         <= multiset(recorded + Map(SixDecimals, Joined(files, nearest)))
    ensures multiset(Map(SixDecimals, list)) <= multiset(recorded + Map(SixDecimals, Joined(files, nearest)))
  {
    hide SixDecimals, Joined;
    EntriesInJoin(files, nearest);
    MapPart(SixDecimals, Map(NeighbourDistance, nearest), Joined(files, nearest));
    assert Map(SixDecimals, list + Map(NeighbourDistance, nearest))
        == Map(SixDecimals, list) + Map(SixDecimals, Map(NeighbourDistance, nearest));
  }

  // ------------------------------------------------------------ a whole job

  /** The calculation loop over the tracks `seen` and the first n forward rows behind it. */
  function Calculated(s: LoopState, metric: Metric, kind: Kind, c: int, seen: seq<int>, moments: seq<Moment>,
                      initialRun: bool, k: nat, committed: seq<Row>, n: nat): LoopState
    requires |moments| == |seen|
  {
    var t := MetAll(s, metric, kind, seen, c, moments, initialRun, k, committed);
    var nearest := TopK(NeighbourLeq, n, Candidates(metric, kind, c, seen));
    LoopState(WithForward(t.cache, c, nearest), t.safe, t.queue + ForwardRows(kind, c, nearest))
  }

  /** A job keeps every answer right for the longer list of meetings; it keeps the cache sound if and
      only if the new distances may be pushed behind the cached list of its track. */
  lemma JobKeepsPromise(files: Files, cache: map<int, seq<real>>, safe: nat, committed: seq<Row>, metric: Metric,
                        k: nat, met: seq<Meeting>, kind: Kind, c: int, seen: seq<int>, moments: seq<Moment>,
                        files': Files, initialRun: bool)
    requires IndexOk(files, committed, metric, k, met) && CacheOk(files, cache, committed, kind)
    requires k >= 1 && CanMeet(files, met, kind, c, seen) && |moments| == |seen| && Growing(files, moments, files')
    ensures var s := Calculated(LoopState(cache, safe, []), metric, kind, c, seen, moments, initialRun, k, committed,
                                k);
      var rows := committed + Printed(s.queue);
      && files <= files' && IndexOk(files', rows, metric, k, met + NewMeetings(kind, c, seen))
      && (CacheOk(files', s.cache, rows, kind)
          <==> Sorted(RealLeq, ListOf(cache, c)
                               + Map(NeighbourDistance, TopK(NeighbourLeq, k, Candidates(metric, kind, c, seen)))))
  {
    var s := LoopState(cache, safe, []);
    var t := MetAll(s, metric, kind, seen, c, moments, initialRun, k, committed);
    var rows, nearest := committed + Printed(t.queue), TopK(NeighbourLeq, k, Candidates(metric, kind, c, seen));
    LoopKeepsPromise(files, cache, safe, committed, metric, k, met, kind, c, seen, moments, files', initialRun);
    FirstsFound(files', metric, kind, c, seen, k);
    OwnListStays(s, metric, kind, seen, c, moments, initialRun, k, committed);
    hide IndexOk, CacheOk, MidJobOk, MetAll, TopK, CanMeet, Recorded;
    EndOfJob(files', rows, metric, k, met, kind, c, seen);
    ForwardSoundIff(files', t.cache, rows, kind, c, nearest);
    PrintedConcat(committed, t.queue, ForwardRows(kind, c, nearest));
  }

  lemma LoopKeepsPromise(files: Files, cache: map<int, seq<real>>, safe: nat, committed: seq<Row>, metric: Metric,
                         k: nat, met: seq<Meeting>, kind: Kind, c: int, seen: seq<int>, moments: seq<Moment>,
                         files': Files, initialRun: bool)
    requires IndexOk(files, committed, metric, k, met) && CacheOk(files, cache, committed, kind)
    requires k >= 1 && CanMeet(files, met, kind, c, seen) && |moments| == |seen| && Growing(files, moments, files')
    ensures var t := MetAll(LoopState(cache, safe, []), metric, kind, seen, c, moments, initialRun, k, committed);
      && MidJobOk(files', committed + Printed(t.queue), metric, k, met, kind, c, seen)
      && CacheOk(files', t.cache, committed + Printed(t.queue), kind)
    ensures files <= files' && CanMeet(files', met, kind, c, seen)
  {
    hide IndexOk, CacheOk, MidJobOk, MetAll;
    StartOfLoop(files, committed, metric, k, met, kind, c, cache, safe);
    MetAllKeepsPromise(files, LoopState(cache, safe, []), committed, metric, k, met, kind, c, seen, moments, files',
                       initialRun);
  }

  lemma PrintedConcat(committed: seq<Row>, queue: seq<Row>, more: seq<Row>)
    ensures committed + Printed(queue + more) == committed + Printed(queue) + Printed(more)
  {
    assert Printed(queue + more) == Printed(queue) + Printed(more);
  }

  /** The loop leaves the list of the job's own track alone. */
  lemma {:induction false} OwnListStays(s: LoopState, metric: Metric, kind: Kind, bs: seq<int>, c: int,
                                        moments: seq<Moment>, initialRun: bool, k: nat, committed: seq<Row>)
    requires |moments| == |bs| && forall b :: b in bs ==> b < c
    ensures ListOf(MetAll(s, metric, kind, bs, c, moments, initialRun, k, committed).cache, c) == ListOf(s.cache, c)
  {
    hide Met;
    if bs != [] {
      var n := |bs| - 1;
      assert bs[n] in bs && forall b :: b in bs[..n] ==> b in bs;
      OwnListStays(s, metric, kind, bs[..n], c, moments[..n], initialRun, k, committed);
      OtherListStays(MetAll(s, metric, kind, bs[..n], c, moments[..n], initialRun, k, committed), kind, bs[n], c,
                     metric(kind, c, bs[n]), moments[n], initialRun, k, committed, c);
    }
  }

  lemma OtherListStays(s: LoopState, kind: Kind, b: int, c: int, d: real, now: Moment, initialRun: bool, k: nat,
                       committed: seq<Row>, t: int)
    requires t != b
    ensures ListOf(Met(s, kind, b, c, d, now, initialRun, k, committed).cache, t) == ListOf(s.cache, t)
  {
    hide Offered, TopK, Values;
  }

  /** Every track that a job meets has a file. */
  lemma FirstsFound(files: Files, metric: Metric, kind: Kind, c: int, seen: seq<int>, k: nat)
    requires forall b :: b in seen ==> b in files
    ensures AllFound(files, TopK(NeighbourLeq, k, Candidates(metric, kind, c, seen)))
  {
    var nearest := TopK(NeighbourLeq, k, Candidates(metric, kind, c, seen));
    forall n | n in nearest ensures n.track in files {
      var i :| 0 <= i < |nearest| && nearest[i] == n;
      CandidateOfForwardRow(metric, kind, c, seen, k, i);
    }
  }

  /** A job that stops in the loop, before or after a fetch, has only recorded what it queued. */
  lemma LoopIsRecorded(files: Files, cache: map<int, seq<real>>, safe: nat, committed: seq<Row>, metric: Metric, k: nat,
                       met: seq<Meeting>, kind: Kind, c: int, seen: seq<int>, moments: seq<Moment>, files': Files,
                       initialRun: bool)
    requires IndexOk(files, committed, metric, k, met) && CacheOk(files, cache, committed, kind)
    requires k >= 1 && CanMeet(files, met, kind, c, seen) && |moments| == |seen| && Growing(files, moments, files')
    ensures var t := MetAll(LoopState(cache, safe, []), metric, kind, seen, c, moments, initialRun, k, committed);
      CacheOk(files', t.cache, committed + Printed(t.queue), kind)
    ensures IndexOk(files', committed, metric, k, met)
    ensures forall r :: r in committed ==> SixDecimals(r.value) == r.value
  {
    LoopKeepsPromise(files, cache, safe, committed, metric, k, met, kind, c, seen, moments, files', initialRun);
    TrueRowsArePrinted(committed, metric, met);
    hide IndexOk, CacheOk, MidJobOk, MetAll, CanMeet;
    IndexLater(files, files', committed, metric, k, met);
  }

  /** So has one that stops behind any of its forward rows. */
  lemma ForwardIsRecorded(files: Files, cache: map<int, seq<real>>, safe: nat, committed: seq<Row>, metric: Metric,
                          k: nat, met: seq<Meeting>, kind: Kind, c: int, seen: seq<int>, moments: seq<Moment>,
                          files': Files, initialRun: bool, n: nat)
    requires IndexOk(files, committed, metric, k, met) && CacheOk(files, cache, committed, kind)
    requires k >= 1 && CanMeet(files, met, kind, c, seen) && |moments| == |seen| && Growing(files, moments, files')
    ensures var s := Calculated(LoopState(cache, safe, []), metric, kind, c, seen, moments, initialRun, k, committed,
                                n);
      Recorded(files', s.cache, committed + Printed(s.queue), kind)
    ensures IndexOk(files', committed, metric, k, met)
  {
    var t := MetAll(LoopState(cache, safe, []), metric, kind, seen, c, moments, initialRun, k, committed);
    LoopKeepsPromise(files, cache, safe, committed, metric, k, met, kind, c, seen, moments, files', initialRun);
    FirstsFound(files', metric, kind, c, seen, n);
    hide IndexOk, CacheOk, MidJobOk, MetAll, TopK, CanMeet, Recorded;
    IndexLater(files, files', committed, metric, k, met);
    var nearest := TopK(NeighbourLeq, n, Candidates(metric, kind, c, seen));
    ForwardSoundIff(files', t.cache, committed + Printed(t.queue), kind, c, nearest);
    PrintedConcat(committed, t.queue, ForwardRows(kind, c, nearest));
  }

  lemma {:induction false} IndexWithFiles(files: Files, more: Files, rows: seq<Row>, metric: Metric, k: nat,
                                          met: seq<Meeting>)
    requires IndexOk(files, rows, metric, k, met)
    ensures IndexOk(files + more, rows, metric, k, met)
    decreases |more|
  {
    hide IndexOk;
    if more != multiset{} {
      var t := AnyOf(more);
      var rest := more - multiset{t};
      assert more == rest + multiset{t} && files + more == (files + multiset{t}) + rest;
      IndexWithFile(files, rows, metric, k, met, t);
      IndexWithFiles(files + multiset{t}, rest, rows, metric, k, met);
    } else {
      assert files + more == files;
    }
  }

  lemma IndexLater(files: Files, files': Files, rows: seq<Row>, metric: Metric, k: nat, met: seq<Meeting>)
    requires IndexOk(files, rows, metric, k, met) && files <= files'
    ensures IndexOk(files', rows, metric, k, met)
  {
    hide IndexOk;
    IndexWithFiles(files, files' - files, rows, metric, k, met);
    assert files + (files' - files) == files';
  }

  // ------------------------------------------------------------ another file

  lemma CacheWithFile(files: Files, topDs: map<int, seq<real>>, rows: seq<Row>, kind: Kind, t: int)
    requires CacheOk(files, topDs, rows, kind)
    ensures CacheOk(files + multiset{t}, topDs, rows, kind)
  {
    forall x | x in topDs ensures ListOk(topDs[x], Values(files + multiset{t}, rows, kind, x)) {
      JoinOneMore(files, Neighbours(rows, kind, x), t);
    }
  }

  /** The promise counts files, not tracks: a reverse row skipped by a reloaded list is missing
      among the k nearest tracks if and only if fewer than k recorded tracks are as near, which cannot
      be while every neighbour has one file. */
  lemma SkipLosesTrackIff(files: Files, rows: seq<Row>, kind: Kind, t: int, k: nat, d: real)
    requires k > 0 && forall r :: r in rows ==> SixDecimals(r.value) == r.value
    ensures var ns := Neighbours(rows, kind, t);
      var tracks := Map(NeighbourDistance, ns);
      var lost := Skipped(TopK(RealLeq, k, Values(files, rows, kind, t)), k, d)
                  && TopK(RealLeq, k, tracks + [SixDecimals(d)]) != TopK(RealLeq, k, tracks);
      && |Sort(RealLeq, tracks)| == |tracks|
      && (lost <==> Skipped(TopK(RealLeq, k, Values(files, rows, kind, t)), k, d)
                    && (|tracks| < k || Sort(RealLeq, tracks)[k - 1] > SixDecimals(d)))
      && ((forall n :: n in ns ==> files[n.track] == 1) ==> !lost)
  {
    hide TopK, Sort, SixDecimals, Skipped, Joined;
    var ns := Neighbours(rows, kind, t);
    RealOrder();
    TopKIgnoresIff(RealLeq, k, Map(NeighbourDistance, ns), SixDecimals(d));
    var list := TopK(RealLeq, k, Values(files, rows, kind, t));
    if (forall n :: n in ns ==> files[n.track] == 1) && Skipped(list, k, d) {
      OneFileEachValues(files, rows, kind, t);
      SkipOfReloaded(files, rows, kind, t, k, d);
    }
  }

  lemma OneFileEachValues(files: Files, rows: seq<Row>, kind: Kind, t: int)
    requires forall n :: n in Neighbours(rows, kind, t) ==> files[n.track] == 1
    ensures Values(files, rows, kind, t) == Map(NeighbourDistance, Neighbours(rows, kind, t))
  {
    OneFileEach(files, Neighbours(rows, kind, t));
  }

  /** A row that a reloaded list refuses is needed by no answer. */
  lemma SkipOfReloaded(files: Files, rows: seq<Row>, kind: Kind, t: int, k: nat, d: real)
    requires k > 0 && forall r :: r in rows ==> SixDecimals(r.value) == r.value
    requires Skipped(TopK(RealLeq, k, Values(files, rows, kind, t)), k, d)
    ensures TopK(RealLeq, k, Values(files, rows, kind, t) + [SixDecimals(d)])
         == TopK(RealLeq, k, Values(files, rows, kind, t))
  {
    hide TopK, Values, SixDecimals;
    ReloadedList(files, rows, kind, t, k);
    DominatedValue(Values(files, rows, kind, t), k, TopK(RealLeq, k, Values(files, rows, kind, t)), d);
  }

  /** With k = 2 a single recorded neighbour that has two files fills the reloaded list, and a
      second, farther track is then skipped. */
  lemma TwoFilesFillTheList(kind: Kind, a: int, b: int, v: real, d: real)
    requires v <= d
    ensures var list := TopK(RealLeq, 2, Values(multiset{b, b}, [Row(kind, a, b, v)], kind, a));
      list == [v, v] && Skipped(list, 2, d)
  {
    assert [Row(kind, a, b, v)][..0] == [];
    var files, n := multiset{b, b}, Neighbour(v, b, -1);
    assert Neighbours([Row(kind, a, b, v)], kind, a) == [n];
    JoinAppend(files, [], n);
    assert [] + [n] == [n] && Joined(files, [n]) == [v, v];
    assert [v, v][..1] == [v] && [v][..0] == [];
    assert Sort(RealLeq, [v]) == [v];
  }

  // ------------------------------------------------------------ after a failed job

  /** How often the value stands in the list as the table would print it. */
  function Copies(list: seq<real>, v: real): nat {
    multiset(Map(SixDecimals, list))[v]
  }

  /** The value of some dropped row stands in its track's list more often than in the
      committed rows. */
  ghost predicate KeepsDropped(files: Files, topDs: map<int, seq<real>>, committed: seq<Row>, dropped: seq<Row>,
                               kind: Kind) {
    exists r :: r in dropped && r.kind == kind && r.a in topDs
                && Copies(topDs[r.a], r.value) > multiset(Values(files, committed, kind, r.a))[r.value]
  }

  /** When queued rows are dropped, the cache is sound for the committed rows if and only if its
      lists are sorted and no value of a dropped row is kept. */
  lemma SoundAfterRollbackIff(files: Files, topDs: map<int, seq<real>>, committed: seq<Row>, dropped: seq<Row>,
                              kind: Kind)
    requires Recorded(files, topDs, committed + dropped, kind)
    ensures CacheOk(files, topDs, committed, kind)
       <==> AllSorted(topDs) && !KeepsDropped(files, topDs, committed, dropped, kind)
  {
    hide AllSorted, Values;
    if !KeepsDropped(files, topDs, committed, dropped, kind) {
      forall t | t in topDs
        ensures multiset(Map(SixDecimals, topDs[t])) <= multiset(Values(files, committed, kind, t))
      {
        RecordedWithout(files, topDs, committed, dropped, kind, t);
      }
    }
  }

  lemma RecordedWithout(files: Files, topDs: map<int, seq<real>>, committed: seq<Row>, dropped: seq<Row>, kind: Kind,
                        t: int)
    requires Recorded(files, topDs, committed + dropped, kind) && t in topDs
    requires !KeepsDropped(files, topDs, committed, dropped, kind)
    ensures multiset(Map(SixDecimals, topDs[t])) <= multiset(Values(files, committed, kind, t))
  {
    var list, before, more := topDs[t], Values(files, committed, kind, t), Values(files, dropped, kind, t);
    ValuesConcat(files, committed, dropped, kind, t);
    forall v ensures Copies(list, v) <= multiset(before)[v] {
      if v in more {
        var r := RowOfValue(files, dropped, kind, t, v);
      } else {
        assert multiset(before + more)[v] == multiset(before)[v] + multiset(more)[v];
      }
    }
  }

  /** The list that the next job finds for a track: stale only if it is not reloaded. */
  ghost predicate Reloads(topDs: map<int, seq<real>>, t: int, buffered: bool, initialRun: bool) {
    !initialRun && (!buffered || ListOf(topDs, t) == [])
  }

  /** The next reverse row of a track, of some copies, is lost by a skip if and only if the track's
      list is not reloaded, is full and ends at or below the distance, while less than k committed
      values do. */
  lemma SkipHarmsIff(files: Files, topDs: map<int, seq<real>>, rows: seq<Row>, kind: Kind, t: int, buffered: bool,
                     initialRun: bool, k: nat, d: real, copies: nat)
    requires k > 0 && copies > 0 && forall r :: r in rows ==> SixDecimals(r.value) == r.value
    ensures var recorded := Values(files, rows, kind, t);
      var list := ListOf(Fetched(topDs, t, buffered, initialRun, TopK(RealLeq, k, recorded)), t);
      && |Sort(RealLeq, recorded)| == |recorded|
      && (Skipped(list, k, d)
          && TopK(RealLeq, k, recorded + Repeat(copies, SixDecimals(d))) != TopK(RealLeq, k, recorded)
          <==> !Reloads(topDs, t, buffered, initialRun) && Skipped(ListOf(topDs, t), k, d)
               && (|recorded| < k || Sort(RealLeq, recorded)[k - 1] > SixDecimals(d)))
  {
    hide TopK, Sort, Values, SixDecimals, Skipped;
    var recorded := Values(files, rows, kind, t);
    RealOrder();
    CopiesIgnoredIff(k, recorded, SixDecimals(d), copies);
    if Reloads(topDs, t, buffered, initialRun) && Skipped(TopK(RealLeq, k, recorded), k, d) {
      SkipOfReloaded(files, rows, kind, t, k, d);
      CopiesIgnored(k, recorded, SixDecimals(d), copies);
    }
  }
}
