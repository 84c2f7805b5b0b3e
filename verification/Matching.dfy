/** What the greedy matching of the untagged arguments means, argument by argument. */
module Matching {
  import opened Argtable
  import opened Wrappers

  /** How many of some outcomes an entry has accepted. */
  function TakenBy(outcomes: seq<Outcome>, t: nat): nat {
    multiset(outcomes)[Accepted(t)]
  }

  /** An untagged entry that has counted some arguments takes one more. */
  predicate Takes(e: Entry, count: nat, arg: string) {
    !e.tagged && e.scans && count != e.maxcount && e.valid(Some(arg))
  }

  lemma TakenBehind(first: Outcome, rest: seq<Outcome>, t: nat)
    ensures TakenBy([first] + rest, t) == (if first == Accepted(t) then 1 else 0) + TakenBy(rest, t)
  {
  }

  lemma NoneTaken(t: nat)
    ensures TakenBy([], t) == 0
  {
  }

  lemma FirstOutcome(table: seq<Entry>, counts: seq<nat>, tab: nat, args: seq<string>)
    requires |counts| == |table| && tab <= |table| && args != []
    ensures var r, t := Match(table, counts, tab, args), FirstAccepting(table, counts, tab, args[0]);
      && (t < |table| ==> r[0] == Accepted(t) && r[1..] == Match(table, counts[t := counts[t] + 1], t, args[1..]))
      && (t == |table| ==> r[0] == Rejected(LastError(table, counts, tab, args[0])) && r[1..] == NoMatches(args[1..]))
      && (t == |table| ==> forall i :: 0 <= i < |args| ==> r[i].Rejected?)
  {
  }

  lemma TakesIff(e: Entry, count: nat, arg: string)
    ensures Takes(e, count, arg) <==> Untagged(e) && ScanCode(e, count, Some(arg)) == 0
  {
  }

  /** As long as every argument is accepted, the next one goes to the first entry that takes it, not
      before the entry of the last; it is rejected if and only if none does. */
  lemma {:induction false} MatchIsGreedy(table: seq<Entry>, counts: seq<nat>, tab: nat, args: seq<string>, i: nat)
    requires |counts| == |table| && tab <= |table| && i < |args|
    requires i > 0 ==> Match(table, counts, tab, args)[i - 1].Accepted?
    ensures var r := Match(table, counts, tab, args);
      var from := if i == 0 then tab else r[i - 1].entry;
      && (forall j :: from <= j < |table| && (r[i].Accepted? ==> j < r[i].entry) ==>
            !Takes(table[j], counts[j] + TakenBy(r[..i], j), args[i]))
      && (r[i].Accepted? ==>
            var t := r[i].entry;
            from <= t < |table| && Takes(table[t], counts[t] + TakenBy(r[..i], t), args[i]))
    decreases |args|
  {
    hide Match, TakenBy, Takes, Untagged, ScanCode;
    FirstOutcome(table, counts, tab, args);
    var r, t := Match(table, counts, tab, args), FirstAccepting(table, counts, tab, args[0]);
    if i == 0 {
      assert r[..0] == [];
      forall j | 0 <= j < |table| ensures counts[j] + TakenBy(r[..0], j) == counts[j] {
        NoneTaken(j);
      }
      forall j | 0 <= j < |table|
        ensures Takes(table[j], counts[j], args[0])
           <==> Untagged(table[j]) && ScanCode(table[j], counts[j], Some(args[0])) == 0
      {
        TakesIff(table[j], counts[j], args[0]);
      }
    } else if t < |table| {
      var counts' := counts[t := counts[t] + 1];
      var rest := r[1..];
      assert i > 1 ==> r[i - 1] == rest[i - 2];
      MatchIsGreedy(table, counts', t, args[1..], i - 1);
      assert r[..i] == [r[0]] + rest[..i - 1];
      forall j | 0 <= j < |table| ensures counts[j] + TakenBy(r[..i], j) == counts'[j] + TakenBy(rest[..i - 1], j) {
        TakenBehind(r[0], rest[..i - 1], j);
      }
    }
  }

  /** No untagged entry at or behind j. */
  predicate NoUntagged(table: seq<Entry>, j: nat) {
    forall u :: j <= u < |table| ==> table[u].tagged || !table[u].scans
  }

  lemma {:induction false} NoUntaggedError(table: seq<Entry>, counts: seq<nat>, tab: nat, arg: string)
    requires |counts| == |table| && tab <= |table| && NoUntagged(table, tab)
    ensures LastError(table, counts, tab, arg) == Error(ARG_ENOMATCH, EndOfTable, Some(arg))
    decreases |table|
  {
    if tab < |table| {
      var init, last := table[..|table| - 1], table[|table| - 1];
      assert last.tagged || !last.scans;
      assert forall u :: 0 <= u < |init| ==> init[u] == table[u];
      NoUntaggedError(init, counts[..|init|], tab, arg);
    }
  }

  /** The last untagged entry gives the error. */
  lemma {:induction false} LastErrorMeaning(table: seq<Entry>, counts: seq<nat>, tab: nat, arg: string, j: nat)
    requires |counts| == |table| && tab <= j < |table|
    requires !table[j].tagged && table[j].scans && NoUntagged(table, j + 1)
    requires ScanCode(table[j], counts[j], Some(arg)) != 0
    ensures LastError(table, counts, tab, arg)
         == Error(if counts[j] == table[j].maxcount then EMAXCOUNT else EBADVALUE, Of(j), Some(arg))
    decreases |table|
  {
    if j < |table| - 1 {
      var init, last := table[..|table| - 1], table[|table| - 1];
      assert last.tagged || !last.scans;
      assert forall u :: 0 <= u < |init| ==> init[u] == table[u];
      LastErrorMeaning(init, counts[..|init|], tab, arg, j);
    }
  }

  /** The first rejected argument gets the error of the last untagged entry j that could have taken it,
      and every later one that of an argument without an entry. */
  lemma {:induction false} RejectedErrors(table: seq<Entry>, counts: seq<nat>, tab: nat, args: seq<string>, i: nat,
                                          j: nat)
    requires |counts| == |table| && tab <= |table| && i < |args|
    requires Match(table, counts, tab, args)[i].Rejected?
    ensures var r := Match(table, counts, tab, args);
      var from, e := (if i == 0 then tab else if r[i - 1].Accepted? then r[i - 1].entry else |table|), r[i].error;
      && (NoUntagged(table, from) ==> e == Error(ARG_ENOMATCH, EndOfTable, Some(args[i])))
      && (from <= j < |table| && !table[j].tagged && table[j].scans && NoUntagged(table, j + 1) ==>
            e == Error(if counts[j] + TakenBy(r[..i], j) == table[j].maxcount then EMAXCOUNT else EBADVALUE, Of(j),
                       Some(args[i])))
    decreases |args|
  {
    hide TakenBy, NoUntagged, LastError, Match, ScanCode;
    FirstOutcome(table, counts, tab, args);
    var r, t := Match(table, counts, tab, args), FirstAccepting(table, counts, tab, args[0]);
    if i == 0 {
      assert r[..0] == [];
      NoneTaken(j);
      if NoUntagged(table, tab) {
        NoUntaggedError(table, counts, tab, args[0]);
      }
      if tab <= j < |table| && !table[j].tagged && table[j].scans && NoUntagged(table, j + 1) {
        LastErrorMeaning(table, counts, tab, args[0], j);
      }
    } else if t == |table| {
      BehindRejected(table, counts, tab, args, i);
    } else {
      var counts', rest := counts[t := counts[t] + 1], r[1..];
      assert r[i] == rest[i - 1] && (i > 1 ==> r[i - 1] == rest[i - 2]);
      RejectedErrors(table, counts', t, args[1..], i - 1, j);
      assert r[..i] == [r[0]] + rest[..i - 1];
      TakenBehind(r[0], rest[..i - 1], j);
    }
  }

  lemma BehindRejected(table: seq<Entry>, counts: seq<nat>, tab: nat, args: seq<string>, i: nat)
    requires |counts| == |table| && tab <= |table| && 0 < i < |args|
    requires FirstAccepting(table, counts, tab, args[0]) == |table|
    ensures var r := Match(table, counts, tab, args);
      r[i - 1].Rejected? && r[i] == Rejected(Error(ARG_ENOMATCH, EndOfTable, Some(args[i])))
  {
    FirstOutcome(table, counts, tab, args);
    var r := Match(table, counts, tab, args);
    assert r[i] == r[1..][i - 1];
  }

  /** An entry counts what it accepts and stores it in order. */
  lemma {:induction false} ValuesInOrder(outcomes: seq<Outcome>, args: seq<string>, t: nat)
    requires |outcomes| == |args|
    ensures CountOf(outcomes, t) == |ValuesOf(outcomes, args, t)| == TakenBy(outcomes, t)
    ensures forall i :: 0 <= i < |args| && outcomes[i] == Accepted(t) ==>
      && TakenBy(outcomes[..i], t) < TakenBy(outcomes, t)
      && ValuesOf(outcomes, args, t)[TakenBy(outcomes[..i], t)] == args[i]
  {
    if outcomes == [] {
      NoneTaken(t);
    } else {
      hide TakenBy;
      var first, rest := outcomes[0], outcomes[1..];
      assert outcomes == [first] + rest;
      ValuesInOrder(rest, args[1..], t);
      TakenBehind(first, rest, t);
      forall i | 0 <= i < |args| && outcomes[i] == Accepted(t)
        ensures TakenBy(outcomes[..i], t) < TakenBy(outcomes, t)
        ensures ValuesOf(outcomes, args, t)[TakenBy(outcomes[..i], t)] == args[i]
      {
        if i == 0 {
          assert outcomes[..0] == [];
          NoneTaken(t);
        } else {
          assert outcomes[..i] == [first] + rest[..i - 1] && rest[i - 1] == outcomes[i] && args[1..][i - 1] == args[i];
          TakenBehind(first, rest[..i - 1], t);
        }
      }
    }
  }

  /** The errors are those of the rejected arguments, which stand behind the accepted ones. */
  lemma {:induction false} ErrorsInOrder(outcomes: seq<Outcome>, n: nat)
    requires n <= |outcomes| && forall i :: 0 <= i < |outcomes| ==> (outcomes[i].Accepted? <==> i < n)
    ensures |ErrorsOf(outcomes)| == |outcomes| - n
    ensures forall i :: n <= i < |outcomes| ==> ErrorsOf(outcomes)[i - n] == outcomes[i].error
  {
    if outcomes != [] {
      var first, rest := outcomes[0], outcomes[1..];
      assert forall i :: 0 <= i < |rest| ==> rest[i] == outcomes[i + 1];
      OneErrorMore(outcomes);
      hide ErrorsOf;
      if n > 0 {
        ErrorsInOrder(rest, n - 1);
      } else {
        ErrorsInOrder(rest, 0);
      }
    }
  }

  lemma OneErrorMore(outcomes: seq<Outcome>)
    requires outcomes != []
    ensures var rest := ErrorsOf(outcomes[1..]);
      ErrorsOf(outcomes) == if outcomes[0].Rejected? then [outcomes[0].error] + rest else rest
  {
    assert [] + ErrorsOf(outcomes[1..]) == ErrorsOf(outcomes[1..]);
  }
}
