/** The parallel live query: threads collect private lists of distances and merge the
    first k entries of each into one shared list. */
module LiveQuery {
  import opened Ordering
  import opened Distances

  datatype Segment = Segment(track: int, segment: int)

  /** The full answer: one entry for every loaded feature vector. */
  function Entries(others: seq<Segment>, distance: Segment -> real): (r: seq<Neighbour>)
    ensures |r| == |others|
    ensures forall i :: 0 <= i < |others| ==> r[i] == Entry(others[i], distance)
  {
    seq(|others|, i requires 0 <= i < |others| => Entry(others[i], distance))
  }

  function Entry(s: Segment, distance: Segment -> real): Neighbour {
    Neighbour(distance(s), s.track, s.segment)
  }

  /** All private entries of the threads that have not merged their list yet. */
  function Pending(lists: seq<seq<Neighbour>>, merged: set<nat>): seq<Neighbour> {
    if lists == [] then []
    else
      Pending(lists[..|lists| - 1], merged)
      + if |lists| - 1 in merged then [] else lists[|lists| - 1]
  }

  lemma {:induction false} PendingAppend(lists: seq<seq<Neighbour>>, t: nat, n: Neighbour)
    requires t < |lists|
    ensures multiset(Pending(lists[t := lists[t] + [n]], {})) == multiset(Pending(lists, {})) + multiset{n}
  {
    var lists' := lists[t := lists[t] + [n]];
    var last := |lists| - 1;
    var init := lists[..last];
    assert Pending(lists, {}) == Pending(init, {}) + lists[last];
    assert Pending(lists', {}) == Pending(lists'[..last], {}) + lists'[last];
    if t == last {
      assert lists'[..last] == init;
    } else {
      assert lists'[..last] == init[t := init[t] + [n]];
      PendingAppend(init, t, n);
    }
  }

  lemma {:induction false} PendingMerge(lists: seq<seq<Neighbour>>, merged: set<nat>, t: nat)
    requires t < |lists| && t !in merged
    ensures multiset(Pending(lists, merged)) == multiset(lists[t] + Pending(lists, merged + {t}))
  {
    var last := |lists| - 1;
    if t == last {
      PendingFrame(lists[..last], merged, t);
    } else {
      PendingMerge(lists[..last], merged, t);
    }
  }

  lemma {:induction false} PendingFrame(lists: seq<seq<Neighbour>>, merged: set<nat>, t: nat)
    requires t >= |lists|
    ensures Pending(lists, merged + {t}) == Pending(lists, merged)
  {
    if lists != [] {
      PendingFrame(lists[..|lists| - 1], merged, t);
    }
  }

  lemma {:induction false} NothingPending(lists: seq<seq<Neighbour>>, merged: set<nat>)
    requires forall t :: 0 <= t < |lists| ==> t in merged || lists[t] == []
    ensures Pending(lists, merged) == []
  {
    if lists != [] {
      NothingPending(lists[..|lists| - 1], merged);
    }
  }

  /** Merging the first k of one private list preserves the first k of everything. */
  lemma MergeStep(shared: seq<Neighbour>, lists: seq<seq<Neighbour>>, merged: set<nat>, t: nat, k: nat)
    requires t < |lists| && t !in merged
    ensures TopK(NeighbourLeq, k, shared + Take(k, Sort(NeighbourLeq, lists[t])) + Pending(lists, merged + {t}))
         == TopK(NeighbourLeq, k, shared + Pending(lists, merged))
  {
    NeighbourOrder();
    var first := TopK(NeighbourLeq, k, lists[t]);
    var rest := Pending(lists, merged + {t});
    TopKTwice(NeighbourLeq, k, lists[t]);
    TopKConcat(NeighbourLeq, k, first, lists[t], rest);
    TopKConcat(NeighbourLeq, k, first + rest, lists[t] + rest, shared);
    SortPermutation(NeighbourLeq, shared + first + rest, first + rest + shared);
    PendingMerge(lists, merged, t);
    SortPermutation(NeighbourLeq, shared + Pending(lists, merged), lists[t] + rest + shared);
  }

  lemma OneMore<T>(s: seq<T>, i: nat)
    requires i < |s| && Distinct(s)
    ensures s[i] in s && s[i] !in s[..i]
    ensures forall t :: t in s[..i + 1] <==> t in s[..i] || t == s[i]
  {
    assert s[..i + 1] == s[..i] + [s[i]];
  }

  lemma StartOfMerge(lists: seq<seq<Neighbour>>, all: seq<Neighbour>, k: nat)
    requires multiset(Pending(lists, {})) == multiset(all)
    ensures TopK(NeighbourLeq, k, Pending(lists, {})) == TopK(NeighbourLeq, k, all)
  {
    NeighbourOrder();
    SortPermutation(NeighbourLeq, Pending(lists, {}), all);
  }

  /** `order` lists every iteration below n exactly once. */
  ghost predicate IsScheduleOf(order: seq<int>, n: nat) {
    multiset(order) == multiset(Indices(n))
  }

  function Indices(n: nat): (r: seq<int>)
    ensures |r| == n && forall i :: 0 <= i < n ==> r[i] == i
  {
    seq(n, i requires 0 <= i < n => i)
  }

  function Pick(all: seq<Neighbour>, i: int): Neighbour {
    if 0 <= i < |all| then all[i] else Neighbour(0.0, 0, 0)
  }

  function Picked(all: seq<Neighbour>, order: seq<int>): seq<Neighbour> {
    Map(i => Pick(all, i), order)
  }

  lemma PickedStep(all: seq<Neighbour>, order: seq<int>, i: nat)
    requires IsScheduleOf(order, |all|) && i < |order|
    ensures 0 <= order[i] < |all|
    ensures multiset(Picked(all, order[..i + 1])) == multiset(Picked(all, order[..i])) + multiset{all[order[i]]}
  {
    assert order[i] in multiset(order);
    assert order[i] in Indices(|all|);
    assert Picked(all, order[..i + 1]) == Picked(all, order[..i]) + [all[order[i]]];
  }

  lemma WholeSchedule(all: seq<Neighbour>, order: seq<int>)
    requires IsScheduleOf(order, |all|)
    ensures multiset(Picked(all, order)) == multiset(all)
  {
    var f := (i: int) => Pick(all, i);
    MapPermutation(f, order, Indices(|all|));
    assert Picked(all, order) == Map(f, order);
    assert Map(f, Indices(|all|)) == all;
  }

  /** What the k nearest entries are: loaded vectors at their distances, none more often than it is
      loaded, ordered by distance, track and segment, and nothing that is left out comes before them. */
  lemma NearestByFields(others: seq<Segment>, distance: Segment -> real, k: nat, sent: seq<Neighbour>)
    requires sent == TopK(NeighbourLeq, k, Entries(others, distance))
    ensures |sent| == if |others| <= k then |others| else k
    ensures forall n :: n in sent ==> n.d == distance(Segment(n.track, n.segment))
    ensures forall i, j :: 0 <= i < j < |sent| ==>
      || sent[i].d < sent[j].d
      || (sent[i].d == sent[j].d
          && (sent[i].track < sent[j].track
              || (sent[i].track == sent[j].track && sent[i].segment <= sent[j].segment)))
    ensures var found := multiset(Map((n: Neighbour) => Segment(n.track, n.segment), sent));
      && found <= multiset(others)
      && forall s, n :: found[s] < multiset(others)[s] && n in sent ==>
           || n.d < distance(s)
           || (n.d == distance(s) && (n.track < s.track || (n.track == s.track && n.segment <= s.segment)))
  {
    hide TopK, Sorted, NeighbourLeq;
    NeighbourOrder();
    var all := Entries(others, distance);
    TopKIsPart(NeighbourLeq, k, all);
    EntriesInOrder(sent);
    var rest := TopKLeast(NeighbourLeq, k, all);
    var f := (n: Neighbour) => Segment(n.track, n.segment);
    BothParts(others, distance, sent, rest);
    forall s, n | multiset(Map(f, sent))[s] < multiset(others)[s] && n in sent
      ensures NeighbourLeq(n, Neighbour(distance(s), s.track, s.segment))
    {
      LeftOut(others, distance, sent, rest, s);
    }
    forall s, n | multiset(Map(f, sent))[s] < multiset(others)[s] && n in sent
      ensures || n.d < distance(s)
              || (n.d == distance(s) && (n.track < s.track || (n.track == s.track && n.segment <= s.segment)))
    {
      ByFields(n, Neighbour(distance(s), s.track, s.segment));
    }
  }

  lemma ByFields(x: Neighbour, y: Neighbour)
    requires NeighbourLeq(x, y)
    ensures x.d < y.d || (x.d == y.d && (x.track < y.track || (x.track == y.track && x.segment <= y.segment)))
  {
  }

  /** The entries that are sent and those that are not: each at its distance, together all loaded ones. */
  lemma BothParts(others: seq<Segment>, distance: Segment -> real, sent: seq<Neighbour>, rest: seq<Neighbour>)
    requires multiset(sent + rest) == multiset(Entries(others, distance))
    ensures forall n :: n in sent || n in rest ==> n.d == distance(Segment(n.track, n.segment))
    ensures var f := (n: Neighbour) => Segment(n.track, n.segment);
      multiset(others) == multiset(Map(f, sent)) + multiset(Map(f, rest))
  {
    var f := (n: Neighbour) => Segment(n.track, n.segment);
    var all := Entries(others, distance);
    assert Map(f, all) == others;
    MapPermutation(f, sent + rest, all);
    assert Map(f, sent + rest) == Map(f, sent) + Map(f, rest);
    assert forall n :: n in sent || n in rest ==> n in sent + rest;
    forall n | n in sent + rest ensures n.d == distance(f(n)) {
      assert n in multiset(all);
      var i :| 0 <= i < |all| && all[i] == n;
    }
  }

  lemma LeftOut(others: seq<Segment>, distance: Segment -> real, sent: seq<Neighbour>, rest: seq<Neighbour>, s: Segment)
    requires multiset(sent + rest) == multiset(Entries(others, distance))
    requires multiset(Map((n: Neighbour) => Segment(n.track, n.segment), sent))[s] < multiset(others)[s]
    ensures Neighbour(distance(s), s.track, s.segment) in rest
  {
    var f := (n: Neighbour) => Segment(n.track, n.segment);
    BothParts(others, distance, sent, rest);
    assert s in multiset(Map(f, rest));
    var i :| 0 <= i < |Map(f, rest)| && Map(f, rest)[i] == s;
    assert rest[i] == Neighbour(distance(s), s.track, s.segment);
  }

  lemma EntriesInOrder(sent: seq<Neighbour>)
    requires Sorted(NeighbourLeq, sent)
    ensures forall i, j :: 0 <= i < j < |sent| ==>
      || sent[i].d < sent[j].d
      || (sent[i].d == sent[j].d
          && (sent[i].track < sent[j].track
              || (sent[i].track == sent[j].track && sent[i].segment <= sent[j].segment)))
  {
    assert forall i, j :: 0 <= i < j < |sent| ==> NeighbourLeq(sent[i], sent[j]);
  }

  class Query {
    const others: seq<Segment>
    const distance: Segment -> real
    const topk: nat
    var lists: seq<seq<Neighbour>>
    var shared: seq<Neighbour>

    constructor (others: seq<Segment>, distance: Segment -> real, topk: nat)
      ensures this.others == others && this.distance == distance && this.topk == topk
      ensures shared == []
    {
      this.others, this.distance, this.topk := others, distance, topk;
      lists, shared := [], [];
    }

    function Everything(): seq<Neighbour> {
      Entries(others, distance)
    }

    /** The parallel loop: iteration order[i] is taken at step i by thread worker[i]. */
    method CollectDistances(threads: nat, order: seq<int>, worker: seq<nat>)
      requires IsScheduleOf(order, |others|)
      requires |worker| == |order| && forall i :: 0 <= i < |worker| ==> worker[i] < threads
      modifies this`lists
      ensures |lists| == threads
      ensures multiset(Pending(lists, {})) == multiset(Everything())
    {
      lists := seq(threads, _ => []);
      NothingPending(lists, {});
      var i := 0;
      while i < |order|
        invariant 0 <= i <= |order| && |lists| == threads
        invariant multiset(Pending(lists, {})) == multiset(Picked(Everything(), order[..i]))
      {
        PickedStep(Everything(), order, i);
        var n := Entry(others[order[i]], distance);
        PendingAppend(lists, worker[i], n);
        lists := lists[worker[i] := lists[worker[i]] + [n]];
        i := i + 1;
      }
      assert order[..i] == order;
      WholeSchedule(Everything(), order);
    }

    /** One critical section: a thread merges the first entries of its private list. */
    method MergeList(t: nat, ghost merged: set<nat>)
      requires t < |lists| && t !in merged
      modifies this`shared
      ensures TopK(NeighbourLeq, topk, shared + Pending(lists, merged + {t}))
           == TopK(NeighbourLeq, topk, old(shared) + Pending(lists, merged))
    {
      MergeStep(shared, lists, merged, t, topk);
      shared := shared + Take(topk, Sort(NeighbourLeq, lists[t]));
    }

    /** The critical sections, in any order of the threads. */
    method MergeLists(mergers: seq<nat>)
      requires Distinct(mergers) && forall t :: t in mergers <==> 0 <= t < |lists|
      requires shared == [] && multiset(Pending(lists, {})) == multiset(Everything())
      modifies this`shared
      ensures TopK(NeighbourLeq, topk, shared) == TopK(NeighbourLeq, topk, Everything())
    {
      ghost var merged: set<nat> := {};
      StartOfMerge(lists, Everything(), topk);
      assert shared + Pending(lists, {}) == Pending(lists, {});
      var i := 0;
      while i < |mergers|
        invariant 0 <= i <= |mergers|
        invariant forall t :: t in merged <==> t in mergers[..i]
        invariant TopK(NeighbourLeq, topk, shared + Pending(lists, merged)) == TopK(NeighbourLeq, topk, Everything())
      {
        OneMore(mergers, i);
        MergeList(mergers[i], merged);
        merged := merged + {mergers[i]};
        i := i + 1;
      }
      assert mergers[..i] == mergers;
      NothingPending(lists, merged);
      assert shared + Pending(lists, merged) == shared;
    }

    /** The entries sent to the client, for every schedule of the threads. */
    method Answer(threads: nat, order: seq<int>, worker: seq<nat>, mergers: seq<nat>) returns (sent: seq<Neighbour>)
      requires shared == [] && IsScheduleOf(order, |others|)
      requires |worker| == |order| && forall i :: 0 <= i < |worker| ==> worker[i] < threads
      requires Distinct(mergers) && forall t :: t in mergers <==> 0 <= t < threads
      modifies this
      ensures sent == TopK(NeighbourLeq, topk, Entries(others, distance))
      ensures |sent| == if |others| <= topk then |others| else topk
      ensures forall n :: n in sent ==> n.d == distance(Segment(n.track, n.segment))
      ensures forall i, j :: 0 <= i < j < |sent| ==>
        || sent[i].d < sent[j].d
        || (sent[i].d == sent[j].d
            && (sent[i].track < sent[j].track
                || (sent[i].track == sent[j].track && sent[i].segment <= sent[j].segment)))
      ensures var found := multiset(Map((n: Neighbour) => Segment(n.track, n.segment), sent));
        && found <= multiset(others)
        && forall s, n :: found[s] < multiset(others)[s] && n in sent ==>
             || n.d < distance(s)
             || (n.d == distance(s) && (n.track < s.track || (n.track == s.track && n.segment <= s.segment)))
    {
      CollectDistances(threads, order, worker);
      MergeLists(mergers);
      ghost var merged := shared;
      shared := Sort(NeighbourLeq, shared);
      sent := [];
      var c := 0;
      while c < |shared| && c < topk
        invariant 0 <= c <= |shared| && c <= topk
        invariant sent == shared[..c]
      {
        sent := sent + [shared[c]];
        c := c + 1;
      }
      assert sent == Take(topk, shared);
      NearestByFields(others, distance, topk, sent);
    }
  }
}
