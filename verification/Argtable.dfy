/** Matching of the untagged arguments against the argument table, and the error list of
    the table's end entry. */
module Argtable {
  import opened OptionSyntax
  import opened Wrappers

  /** A table entry: its option characters, its names with commas between them, whether it takes a
      value, whether it has a scan and a check function, and which texts its scan function takes. */
  datatype Entry = Entry(tagged: bool, shortopts: string, longopts: string, hasValue: bool, hasOptValue: bool,
                         scans: bool, checks: bool, mincount: nat, maxcount: nat, valid: Option<string> -> bool)

  datatype Parent = EndOfTable | Of(entry: nat)

  datatype Error = Error(code: int, parent: Parent, argval: Option<string>)

  const EMINCOUNT := 1
  const EMAXCOUNT := 2
  const EBADVALUE := 3
  const ARG_ELIMIT := 1
  const ARG_ENOMATCH := 3
  const ARG_ELONGOPT := 4
  const ARG_EMISSARG := 5

  // ---------------------------------------------------------------- the end entry

  /** What an end entry with room for `capacity` errors shows of a list of errors. */
  function Shown(all: seq<Error>, capacity: nat): seq<Error>
    requires capacity >= 1
  {
    if |all| <= capacity then all
    else all[..capacity - 1] + [Error(ARG_ELIMIT, EndOfTable, None)]
  }

  /** As many errors as there is room for, in order; when some are left out, the last place says so. */
  lemma ShownMeaning(all: seq<Error>, capacity: nat)
    requires capacity >= 1
    ensures |Shown(all, capacity)| == if |all| <= capacity then |all| else capacity
    ensures forall i :: 0 <= i < |Shown(all, capacity)| ==>
      Shown(all, capacity)[i] ==
        if |all| > capacity && i == capacity - 1 then Error(ARG_ELIMIT, EndOfTable, None) else all[i]
  {
  }

  class End {
    const errors: array<Error>
    var count: nat
    ghost var all: seq<Error>

    ghost predicate Valid()
      reads this, errors
    {
      && errors.Length >= 1
      && count <= errors.Length
      && errors[..count] == Shown(all, errors.Length)
    }

    constructor (maxcount: nat)
      requires maxcount >= 1
      ensures Valid() && fresh(errors) && all == [] && count == 0 && errors.Length == maxcount
    {
      errors := new Error[maxcount](_ => Error(0, EndOfTable, None));
      count, all := 0, [];
    }

    method Reset()
      requires Valid()
      modifies this
      ensures Valid() && all == [] && count == 0
    {
      count, all := 0, [];
    }

    /** Registers an error; when the list is full its last place says so. */
    method RegisterError(e: Error)
      requires Valid()
      modifies this, errors
      ensures Valid() && all == old(all) + [e]
      ensures errors[..count] == Shown(old(all) + [e], errors.Length)
    {
      if count < errors.Length {
        errors[count] := e;
        count := count + 1;
      } else {
        errors[errors.Length - 1] := Error(ARG_ELIMIT, EndOfTable, None);
      }
      all := all + [e];
    }
  }

  // --------------------------------------------------------------- greedy matching

  function ScanCode(e: Entry, count: nat, arg: Option<string>): int {
    if count == e.maxcount then EMAXCOUNT else if e.valid(arg) then 0 else EBADVALUE
  }

  predicate Untagged(e: Entry) {
    !e.tagged && e.scans
  }

  datatype Outcome = Accepted(entry: nat) | Rejected(error: Error)

  /** The first untagged entry at or after `tab` whose scan function takes `arg`; the
      table size if there is none. */
  function FirstAccepting(table: seq<Entry>, counts: seq<nat>, tab: nat, arg: string): (t: nat)
    requires |counts| == |table| && tab <= |table|
    ensures tab <= t <= |table|
    ensures t < |table| ==> Untagged(table[t]) && ScanCode(table[t], counts[t], Some(arg)) == 0
    ensures forall i :: tab <= i < t ==> !Untagged(table[i]) || ScanCode(table[i], counts[i], Some(arg)) != 0
    decreases |table| - tab
  {
    if tab == |table| || (Untagged(table[tab]) && ScanCode(table[tab], counts[tab], Some(arg)) == 0) then tab
    else FirstAccepting(table, counts, tab + 1, arg)
  }

  /** The error of an argument that no entry takes: that of the last scan function tried. */
  function LastError(table: seq<Entry>, counts: seq<nat>, tab: nat, arg: string): Error
    requires |counts| == |table| && tab <= |table|
    decreases |table|
  {
    if tab == |table| then NoMatch(arg)
    else
      var last := |table| - 1;
      if Untagged(table[last]) then Error(ScanCode(table[last], counts[last], Some(arg)), Of(last), Some(arg))
      else LastError(table[..last], counts[..last], tab, arg)
  }

  function NoMatch(arg: string): Error {
    Error(ARG_ENOMATCH, EndOfTable, Some(arg))
  }

  function NoMatches(args: seq<string>): (r: seq<Outcome>)
    ensures |r| == |args| && forall i :: 0 <= i < |args| ==> r[i] == Rejected(NoMatch(args[i]))
  {
    seq(|args|, i requires 0 <= i < |args| => Rejected(NoMatch(args[i])))
  }

  /** The outcome of every argument: each goes to the first entry, not before the entry of
      its predecessor, that takes it; the first that fits nowhere ends the matching. */
  function Match(table: seq<Entry>, counts: seq<nat>, tab: nat, args: seq<string>): (r: seq<Outcome>)
    requires |counts| == |table| && tab <= |table|
    ensures |r| == |args|
    decreases |args|
  {
    if args == [] then []
    else
      var t := FirstAccepting(table, counts, tab, args[0]);
      if t < |table| then [Accepted(t)] + Match(table, counts[t := counts[t] + 1], t, args[1..])
      else [Rejected(LastError(table, counts, tab, args[0]))] + NoMatches(args[1..])
  }

  function CountOf(outcomes: seq<Outcome>, t: nat): nat {
    if outcomes == [] then 0
    else (if outcomes[0] == Accepted(t) then 1 else 0) + CountOf(outcomes[1..], t)
  }

  function ErrorsOf(outcomes: seq<Outcome>): seq<Error> {
    if outcomes == [] then []
    else (if outcomes[0].Rejected? then [outcomes[0].error] else []) + ErrorsOf(outcomes[1..])
  }

  /** The values an entry has stored after the outcomes. */
  function ValuesOf(outcomes: seq<Outcome>, args: seq<string>, t: nat): seq<string>
    requires |outcomes| == |args|
  {
    if outcomes == [] then []
    else (if outcomes[0] == Accepted(t) then [args[0]] else []) + ValuesOf(outcomes[1..], args[1..], t)
  }

  lemma {:induction false} AllRejected(args: seq<string>, t: nat)
    ensures CountOf(NoMatches(args), t) == 0 && |ErrorsOf(NoMatches(args))| == |args|
    ensures ValuesOf(NoMatches(args), args, t) == []
  {
    if args != [] {
      assert NoMatches(args)[1..] == NoMatches(args[1..]);
      AllRejected(args[1..], t);
    }
  }

  ghost predicate WithinMaximum(table: seq<Entry>, counts: seq<nat>) {
    |counts| == |table| && forall t :: 0 <= t < |table| ==> counts[t] <= table[t].maxcount
  }

  /** Every accepted argument goes to an untagged entry that takes its text. */
  lemma {:induction false} AcceptedIsValid(table: seq<Entry>, counts: seq<nat>, tab: nat, args: seq<string>, i: nat)
    requires |counts| == |table| && tab <= |table| && i < |args|
    ensures var r := Match(table, counts, tab, args);
      r[i].Accepted? ==>
        tab <= r[i].entry < |table| && Untagged(table[r[i].entry]) && table[r[i].entry].valid(Some(args[i]))
    decreases |args|
  {
    var t := FirstAccepting(table, counts, tab, args[0]);
    if i > 0 && t < |table| {
      AcceptedIsValid(table, counts[t := counts[t] + 1], t, args[1..], i - 1);
    }
  }

  /** Accepting entries come in table order, and no argument is accepted behind a
      rejected one. */
  lemma {:induction false} AcceptedInOrder(table: seq<Entry>, counts: seq<nat>, tab: nat, args: seq<string>, i: nat,
                                           j: nat)
    requires |counts| == |table| && tab <= |table| && i < j < |args|
    ensures var r := Match(table, counts, tab, args);
      r[j].Accepted? ==> r[i].Accepted? && r[i].entry <= r[j].entry
    decreases |args|
  {
    var t := FirstAccepting(table, counts, tab, args[0]);
    if t < |table| {
      if i > 0 {
        AcceptedInOrder(table, counts[t := counts[t] + 1], t, args[1..], i - 1, j - 1);
      } else {
        AcceptedIsValid(table, counts[t := counts[t] + 1], t, args[1..], j - 1);
      }
    }
  }

  /** No entry takes more than its maximum. */
  lemma {:induction false} AcceptedWithinMaximum(table: seq<Entry>, counts: seq<nat>, tab: nat, args: seq<string>,
                                                 t: nat)
    requires WithinMaximum(table, counts) && tab <= |table| && t < |table|
    ensures counts[t] + CountOf(Match(table, counts, tab, args), t) <= table[t].maxcount
    decreases |args|
  {
    if args != [] {
      var u := FirstAccepting(table, counts, tab, args[0]);
      var r := Match(table, counts, tab, args);
      if u < |table| {
        AcceptedWithinMaximum(table, counts[u := counts[u] + 1], u, args[1..], t);
        assert r[1..] == Match(table, counts[u := counts[u] + 1], u, args[1..]);
      } else {
        AllRejected(args[1..], t);
        assert r[1..] == NoMatches(args[1..]);
      }
    }
  }

  // ------------------------------------------------------------------- accounting

  function Total(counts: seq<nat>): nat {
    if counts == [] then 0 else Total(counts[..|counts| - 1]) + counts[|counts| - 1]
  }

  /** The outcomes accepted by the first n entries. */
  function AcceptedBelow(outcomes: seq<Outcome>, n: nat): nat {
    if outcomes == [] then 0
    else (if outcomes[0].Accepted? && outcomes[0].entry < n then 1 else 0) + AcceptedBelow(outcomes[1..], n)
  }

  lemma {:induction false} AcceptedByOneMore(outcomes: seq<Outcome>, n: nat)
    ensures AcceptedBelow(outcomes, n + 1) == AcceptedBelow(outcomes, n) + CountOf(outcomes, n)
  {
    if outcomes != [] {
      AcceptedByOneMore(outcomes[1..], n);
    }
  }

  lemma {:induction false} NoneBelowZero(outcomes: seq<Outcome>)
    ensures AcceptedBelow(outcomes, 0) == 0
  {
    if outcomes != [] {
      NoneBelowZero(outcomes[1..]);
    }
  }

  /** What the entries count together grows by the accepted outcomes. */
  lemma {:induction false} TotalGrows(before: seq<nat>, after: seq<nat>, outcomes: seq<Outcome>)
    requires |before| == |after| && forall t :: 0 <= t < |before| ==> after[t] == before[t] + CountOf(outcomes, t)
    ensures Total(after) == Total(before) + AcceptedBelow(outcomes, |before|)
  {
    if before == [] {
      NoneBelowZero(outcomes);
    } else {
      var n := |before| - 1;
      TotalGrows(before[..n], after[..n], outcomes);
      AcceptedByOneMore(outcomes, n);
    }
  }

  /** An outcome is accepted or it is an error, if its entry is in the table. */
  lemma {:induction false} AcceptedOrError(outcomes: seq<Outcome>, n: nat)
    requires forall i :: 0 <= i < |outcomes| && outcomes[i].Accepted? ==> outcomes[i].entry < n
    ensures AcceptedBelow(outcomes, n) + |ErrorsOf(outcomes)| == |outcomes|
  {
    if outcomes != [] {
      AcceptedOrError(outcomes[1..], n);
    }
  }

  lemma {:induction false} NotCounted(outcomes: seq<Outcome>, t: nat)
    requires forall i :: 0 <= i < |outcomes| ==> outcomes[i] != Accepted(t)
    ensures CountOf(outcomes, t) == 0
  {
    if outcomes != [] {
      NotCounted(outcomes[1..], t);
    }
  }

  /** Counts and errors of a table grow by one for each argument, and only untagged entries
      count. */
  lemma MatchAccounts(table: seq<Entry>, counts: seq<nat>, after: seq<nat>, args: seq<string>)
    requires |counts| == |after| == |table|
    requires var r := Match(table, counts, 0, args);
      forall t :: 0 <= t < |table| ==> after[t] == counts[t] + CountOf(r, t)
    ensures Total(after) + |ErrorsOf(Match(table, counts, 0, args))| == Total(counts) + |args|
    ensures forall t :: 0 <= t < |table| && !Untagged(table[t]) ==> after[t] == counts[t]
  {
    hide Match;
    var r := Match(table, counts, 0, args);
    forall i | 0 <= i < |r| && r[i].Accepted? ensures r[i].entry < |table| && Untagged(table[r[i].entry]) {
      AcceptedIsValid(table, counts, 0, args, i);
    }
    TotalGrows(counts, after, r);
    AcceptedOrError(r, |table|);
    forall t | 0 <= t < |table| && !Untagged(table[t]) ensures after[t] == counts[t] {
      NotCounted(r, t);
    }
  }

  // ----------------------------------------------------------- the matching loops

  /** What a table has counted, stored and registered. */
  datatype Tally = Tally(counts: seq<nat>, values: seq<seq<string>>, all: seq<Error>)

  /** From `before`, all `outcomes` for `args` lead to the same as `rest` for `args'` do
      from `now`. */
  ghost predicate Due(before: Tally, outcomes: seq<Outcome>, args: seq<string>,
                      now: Tally, rest: seq<Outcome>, args': seq<string>)
  {
    && |outcomes| == |args| && |rest| == |args'|
    && |before.counts| == |before.values| == |now.counts| == |now.values|
    && before.all + ErrorsOf(outcomes) == now.all + ErrorsOf(rest)
    && (forall t :: 0 <= t < |now.counts| ==>
          before.counts[t] + CountOf(outcomes, t) == now.counts[t] + CountOf(rest, t))
    && (forall t :: 0 <= t < |now.counts| ==>
          before.values[t] + ValuesOf(outcomes, args, t) == now.values[t] + ValuesOf(rest, args', t))
  }

  lemma DueAccepted(before: Tally, outcomes: seq<Outcome>, args: seq<string>,
                    now: Tally, rest: seq<Outcome>, args': seq<string>, e: nat)
    requires Due(before, outcomes, args, now, rest, args')
    requires rest != [] && rest[0] == Accepted(e) && e < |now.counts|
    ensures Due(before, outcomes, args,
                Tally(now.counts[e := now.counts[e] + 1], now.values[e := now.values[e] + [args'[0]]], now.all),
                rest[1..], args'[1..])
  {
    hide CountOf, ValuesOf, ErrorsOf;
    assert [] + ErrorsOf(rest[1..]) == ErrorsOf(rest[1..]);
    AcceptedCounts(rest, args', e);
    forall t | 0 <= t < |now.counts|
      ensures now.values[t] + ValuesOf(rest, args', t)
           == now.values[e := now.values[e] + [args'[0]]][t] + ValuesOf(rest[1..], args'[1..], t)
    {
      if t == e {
        assert now.values[t] + ([args'[0]] + ValuesOf(rest[1..], args'[1..], t))
            == now.values[t] + [args'[0]] + ValuesOf(rest[1..], args'[1..], t);
      }
    }
  }

  lemma AcceptedCounts(rest: seq<Outcome>, args: seq<string>, e: nat)
    requires rest != [] && rest[0] == Accepted(e) && |rest| == |args|
    ensures ErrorsOf(rest) == [] + ErrorsOf(rest[1..])
    ensures forall t: nat :: CountOf(rest, t) == (if t == e then 1 else 0) + CountOf(rest[1..], t)
    ensures forall t: nat ::
      ValuesOf(rest, args, t) == if t == e then [args[0]] + ValuesOf(rest[1..], args[1..], t)
                                 else ValuesOf(rest[1..], args[1..], t)
  {
    forall t: nat
      ensures ValuesOf(rest, args, t) == if t == e then [args[0]] + ValuesOf(rest[1..], args[1..], t)
                                         else ValuesOf(rest[1..], args[1..], t)
    {
      assert [] + ValuesOf(rest[1..], args[1..], t) == ValuesOf(rest[1..], args[1..], t);
    }
  }

  lemma DueRejected(before: Tally, outcomes: seq<Outcome>, args: seq<string>,
                    now: Tally, rest: seq<Outcome>, args': seq<string>, e: Error)
    requires Due(before, outcomes, args, now, rest, args')
    requires rest != [] && rest[0] == Rejected(e)
    ensures Due(before, outcomes, args, now.(all := now.all + [e]), rest[1..], args'[1..])
  {
    assert now.all + ([e] + ErrorsOf(rest[1..])) == now.all + [e] + ErrorsOf(rest[1..]);
  }

  /** The tentative error of the entries from `t0` up to `tab`, which all refused `arg`. */
  ghost predicate Tentative(table: seq<Entry>, counts: seq<nat>, t0: nat, tab: nat, arg: string,
                            pending: Option<Error>) {
    && |counts| == |table| && t0 <= tab <= |table|
    && (forall i :: t0 <= i < tab ==> !Untagged(table[i]) || ScanCode(table[i], counts[i], Some(arg)) != 0)
    && LastError(table[..tab], counts[..tab], t0, arg) == if pending.Some? then pending.value else NoMatch(arg)
  }

  lemma EntryPassed(table: seq<Entry>, counts: seq<nat>, t0: nat, tab: nat, arg: string, pending: Option<Error>)
    requires Tentative(table, counts, t0, tab, arg, pending) && tab < |table|
    ensures !Untagged(table[tab]) ==> Tentative(table, counts, t0, tab + 1, arg, pending)
    ensures var code := ScanCode(table[tab], counts[tab], Some(arg));
      Untagged(table[tab]) && code != 0 ==>
        Tentative(table, counts, t0, tab + 1, arg, Some(Error(code, Of(tab), Some(arg))))
  {
    assert table[..tab + 1][..tab] == table[..tab] && counts[..tab + 1][..tab] == counts[..tab];
  }

  lemma EntryAccepts(table: seq<Entry>, counts: seq<nat>, t0: nat, tab: nat, args: seq<string>, pending: Option<Error>)
    requires args != [] && Tentative(table, counts, t0, tab, args[0], pending) && tab < |table|
    requires Untagged(table[tab]) && ScanCode(table[tab], counts[tab], Some(args[0])) == 0
    ensures Match(table, counts, t0, args)
         == [Accepted(tab)] + Match(table, counts[tab := counts[tab] + 1], tab, args[1..])
  {
    assert FirstAccepting(table, counts, t0, args[0]) == tab;
  }

  /** The loop invariant of the matching: the entries from t0 up to `tab` have refused
      the current argument. */
  ghost predicate Offering(before: Tally, outcomes: seq<Outcome>, argv: seq<string>, start: nat, optind: nat,
                           now: Tally, table: seq<Entry>, t0: nat, tab: nat, pending: Option<Error>)
  {
    && start <= optind <= |argv| && t0 <= tab <= |table| && |now.counts| == |now.values| == |table|
    && Due(before, outcomes, argv[start..], now, Match(table, now.counts, t0, argv[optind..]), argv[optind..])
    && (optind < |argv| ==> Tentative(table, now.counts, t0, tab, argv[optind], pending))
  }

  lemma OfferStart(before: Tally, outcomes: seq<Outcome>, argv: seq<string>, start: nat, table: seq<Entry>)
    requires start <= |argv| && |before.counts| == |before.values| == |table|
    requires outcomes == Match(table, before.counts, 0, argv[start..])
    ensures Offering(before, outcomes, argv, start, start, before, table, 0, 0, None)
  {
  }

  lemma OfferRefused(before: Tally, outcomes: seq<Outcome>, argv: seq<string>, start: nat, optind: nat,
                     now: Tally, table: seq<Entry>, t0: nat, tab: nat, pending: Option<Error>)
    requires Offering(before, outcomes, argv, start, optind, now, table, t0, tab, pending)
    requires optind < |argv| && tab < |table| && |now.counts| == |table|
    ensures !Untagged(table[tab]) ==>
      Offering(before, outcomes, argv, start, optind, now, table, t0, tab + 1, pending)
    ensures var code := ScanCode(table[tab], now.counts[tab], Some(argv[optind]));
      Untagged(table[tab]) && code != 0 ==>
        Offering(before, outcomes, argv, start, optind, now, table, t0, tab + 1,
                 Some(Error(code, Of(tab), Some(argv[optind]))))
  {
    hide Due, Match;
    EntryPassed(table, now.counts, t0, tab, argv[optind], pending);
  }

  lemma OfferAccepted(before: Tally, outcomes: seq<Outcome>, argv: seq<string>, start: nat, optind: nat,
                      now: Tally, table: seq<Entry>, t0: nat, tab: nat, pending: Option<Error>)
    requires Offering(before, outcomes, argv, start, optind, now, table, t0, tab, pending)
    requires optind < |argv| && tab < |table| && |now.counts| == |now.values| == |table|
    ensures Untagged(table[tab]) && ScanCode(table[tab], now.counts[tab], Some(argv[optind])) == 0 ==>
      Offering(before, outcomes, argv, start, optind + 1,
               Tally(now.counts[tab := now.counts[tab] + 1], now.values[tab := now.values[tab] + [argv[optind]]],
                     now.all),
               table, tab, tab, None)
  {
    if Untagged(table[tab]) && ScanCode(table[tab], now.counts[tab], Some(argv[optind])) == 0 {
      EntryAccepts(table, now.counts, t0, tab, argv[optind..], pending);
      assert argv[optind..][1..] == argv[optind + 1..];
      hide Due, Match;
      DueAccepted(before, outcomes, argv[start..], now, Match(table, now.counts, t0, argv[optind..]), argv[optind..],
                  tab);
    }
  }

  lemma OfferEnd(before: Tally, outcomes: seq<Outcome>, argv: seq<string>, start: nat, optind: nat,
                 now: Tally, table: seq<Entry>, t0: nat, tab: nat, pending: Option<Error>)
    requires Offering(before, outcomes, argv, start, optind, now, table, t0, tab, pending)
    requires tab == |table| || optind >= |argv|
    ensures Due(before, outcomes, argv[start..], now, Unmatched(argv[optind..], pending), argv[optind..])
  {
    hide Due;
    if optind < |argv| {
      NothingAccepts(table, now.counts, t0, argv[optind..], pending);
    }
  }

  lemma NothingAccepts(table: seq<Entry>, counts: seq<nat>, t0: nat, args: seq<string>, pending: Option<Error>)
    requires |counts| == |table| && t0 <= |table| && args != []
    requires Tentative(table, counts, t0, |table|, args[0], pending)
    ensures Match(table, counts, t0, args) == Unmatched(args, pending)
  {
    assert FirstAccepting(table, counts, t0, args[0]) == |table|;
    assert table[..|table|] == table && counts[..|table|] == counts;
    assert NoMatches(args) == [Rejected(NoMatch(args[0]))] + NoMatches(args[1..]);
  }

  function Start(table: seq<Entry>): Tally {
    Tally(seq(|table|, _ => 0), seq(|table|, _ => []), [])
  }

  lemma NothingUnmatched(pending: Option<Error>)
    ensures Unmatched([], pending) == []
  {
  }

  /** When nothing is left, what was due has happened. */
  lemma NothingDue(before: Tally, outcomes: seq<Outcome>, args: seq<string>, now: Tally)
    requires Due(before, outcomes, args, now, [], [])
    ensures |before.counts| == |before.values| == |now.counts| == |now.values| && |outcomes| == |args|
    ensures now.all == before.all + ErrorsOf(outcomes)
    ensures forall t :: 0 <= t < |now.counts| ==> now.counts[t] == before.counts[t] + CountOf(outcomes, t)
    ensures forall t :: 0 <= t < |now.counts| ==> now.values[t] == before.values[t] + ValuesOf(outcomes, args, t)
  {
    assert now.all + [] == now.all;
    forall t | 0 <= t < |now.counts| ensures now.values[t] == before.values[t] + ValuesOf(outcomes, args, t) {
      assert now.values[t] + [] == now.values[t];
    }
  }

  class Table {
    const table: seq<Entry>
    const end: End
    var counts: seq<nat>
    var values: seq<seq<string>>

    constructor (table: seq<Entry>, end: End)
      ensures this.table == table && this.end == end
      ensures |counts| == |values| == |table|
      ensures forall t :: 0 <= t < |table| ==> counts[t] == 0 && values[t] == []
    {
      this.table, this.end := table, end;
      counts, values := seq(|table|, _ => 0), seq(|table|, _ => []);
    }

    ghost function Now(): Tally
      reads this, end
    {
      Tally(counts, values, end.all)
    }

    ghost predicate Valid()
      reads this, end, end.errors
    {
      |counts| == |values| == |table| && end.Valid()
    }

    /** Forgets the counts, values and errors of an earlier parse. */
    method Reset()
      requires Valid()
      modifies this, end
      ensures Valid() && Now() == Start(table)
    {
      counts, values := seq(|table|, _ => 0), seq(|table|, _ => []);
      end.Reset();
    }

    /** Matches the arguments from `start` on; every one is consumed. */
    method ParseUntagged(argv: array<string>, start: nat) returns (optind: nat)
      requires |counts| == |values| == |table| && end.Valid() && start <= argv.Length
      modifies this, end, end.errors
      ensures end.Valid() && optind == argv.Length
      ensures |counts| == |values| == |table|
      ensures var args := old(argv[start..]);
        var r := Match(table, old(counts), 0, args);
        && end.all == old(end.all) + ErrorsOf(r)
        && (forall t :: 0 <= t < |table| ==> counts[t] == old(counts)[t] + CountOf(r, t))
        && (forall t :: 0 <= t < |table| ==> values[t] == old(values)[t] + ValuesOf(r, args, t))
      ensures Total(counts) - Total(old(counts)) + |end.all| - |old(end.all)| == argv.Length - start
      ensures forall t :: 0 <= t < |table| && !Untagged(table[t]) ==> counts[t] == old(counts)[t]
    {
      hide Match, ErrorsOf, CountOf, ValuesOf, Total, Due, Unmatched;
      ghost var before, args := Now(), argv[start..];
      ghost var outcomes := Match(table, counts, 0, args);
      var pending;
      optind, pending := OfferArguments(argv[..], start, before, outcomes);
      assert argv[..][start..] == args;
      if optind < argv.Length {
        RegisterUnmatched(argv[..], optind, pending, before, outcomes, args);
        optind := argv.Length;
      } else {
        assert argv[..][optind..] == [];
        NothingUnmatched(pending);
      }
      NothingDue(before, outcomes, args, Now());
      MatchAccounts(table, before.counts, counts, args);
    }

    /** The loop over the table: an argument that an entry refuses is offered to the next
        entry, an argument that is taken stays with its entry. */
    method OfferArguments(argv: seq<string>, start: nat, ghost before: Tally, ghost outcomes: seq<Outcome>)
      returns (optind: nat, pending: Option<Error>)
      requires |counts| == |values| == |table| && start <= |argv|
      requires before == Now() && outcomes == Match(table, counts, 0, argv[start..])
      modifies this
      ensures optind <= |argv| && |counts| == |values| == |table|
      ensures Due(before, outcomes, argv[start..], Now(), Unmatched(argv[optind..], pending), argv[optind..])
    {
      OfferStart(before, outcomes, argv, start, table);
      hide Offering, Due, Unmatched;
      optind, pending := start, None;
      var tabindex: nat := 0;
      ghost var t0: nat := 0;
      while tabindex < |table|
        invariant optind <= |argv| && tabindex <= |table| && |counts| == |values| == |table|
        invariant Offering(before, outcomes, argv, start, optind, Now(), table, t0, tabindex, pending)
        decreases |argv| - optind, |table| - tabindex
      {
        if optind >= |argv| {
          break;
        }
        optind, tabindex, pending, t0 := OfferOne(argv, optind, tabindex, pending, before, outcomes, start, t0);
      }
      OfferEnd(before, outcomes, argv, start, optind, Now(), table, t0, tabindex, pending);
    }

    /** Offers the current argument to one entry. */
    method OfferOne(argv: seq<string>, optind: nat, tabindex: nat, pending: Option<Error>,
                    ghost before: Tally, ghost outcomes: seq<Outcome>, ghost start: nat, ghost t0: nat)
      returns (optind': nat, tabindex': nat, pending': Option<Error>, ghost t0': nat)
      requires optind < |argv| && tabindex < |table| && |counts| == |values| == |table|
      requires Offering(before, outcomes, argv, start, optind, Now(), table, t0, tabindex, pending)
      modifies this
      ensures |counts| == |values| == |table| && optind' <= |argv| && tabindex' <= |table|
      ensures optind' > optind || (optind' == optind && tabindex' > tabindex)
      ensures Offering(before, outcomes, argv, start, optind', Now(), table, t0', tabindex', pending')
    {
      hide Offering;
      OfferRefused(before, outcomes, argv, start, optind, Now(), table, t0, tabindex, pending);
      OfferAccepted(before, outcomes, argv, start, optind, Now(), table, t0, tabindex, pending);
      optind', tabindex', pending', t0' := optind, tabindex, pending, t0;
      if !Untagged(table[tabindex]) {
        tabindex' := tabindex + 1;
        return;
      }
      var errorcode := ScanCode(table[tabindex], counts[tabindex], Some(argv[optind]));
      if errorcode == 0 {
        counts := counts[tabindex := counts[tabindex] + 1];
        values := values[tabindex := values[tabindex] + [argv[optind]]];
        optind', pending', t0' := optind + 1, None, tabindex;
      } else {
        pending' := Some(Error(errorcode, Of(tabindex), Some(argv[optind])));
        tabindex' := tabindex + 1;
      }
    }

    /** The tentative error becomes a proper one, and so does every argument behind it. */
    method RegisterUnmatched(argv: seq<string>, start: nat, pending: Option<Error>,
                             ghost before: Tally, ghost outcomes: seq<Outcome>, ghost args: seq<string>)
      requires end.Valid() && start < |argv|
      requires Due(before, outcomes, args, Now(), Unmatched(argv[start..], pending), argv[start..])
      modifies end, end.errors
      ensures end.Valid() && Due(before, outcomes, args, Now(), [], [])
    {
      var optind := start;
      if pending.Some? {
        DueRejected(before, outcomes, args, Now(), Unmatched(argv[start..], pending), argv[start..], pending.value);
        end.RegisterError(pending.value);
        optind := optind + 1;
      }
      while optind < |argv|
        invariant start <= optind <= |argv| && end.Valid()
        invariant Due(before, outcomes, args, Now(), NoMatches(argv[optind..]), argv[optind..])
      {
        DueRejected(before, outcomes, args, Now(), NoMatches(argv[optind..]), argv[optind..], NoMatch(argv[optind]));
        assert NoMatches(argv[optind..])[1..] == NoMatches(argv[optind + 1..]);
        end.RegisterError(NoMatch(argv[optind]));
        optind := optind + 1;
      }
    }

    /** Registers every checked entry that has too few values. */
    method ParseCheck()
      requires |counts| == |table| && end.Valid()
      modifies end, end.errors
      ensures end.Valid() && end.all == old(end.all) + CheckErrors(table, counts)
    {
      var tabindex := 0;
      ghost var all := end.all;
      while tabindex < |table|
        invariant 0 <= tabindex <= |table| && end.Valid()
        invariant end.all == all + CheckErrors(table[..tabindex], counts[..tabindex])
      {
        assert table[..tabindex + 1][..tabindex] == table[..tabindex];
        assert counts[..tabindex + 1][..tabindex] == counts[..tabindex];
        if table[tabindex].checks && counts[tabindex] < table[tabindex].mincount {
          end.RegisterError(Error(EMINCOUNT, Of(tabindex), None));
        }
        tabindex := tabindex + 1;
      }
      assert table[..tabindex] == table && counts[..tabindex] == counts;
    }
  }

  /** The outcomes that are left when the loop over the table has ended. */
  function Unmatched(args: seq<string>, pending: Option<Error>): (r: seq<Outcome>)
    ensures |r| == |args|
  {
    if args != [] && pending.Some? then [Rejected(pending.value)] + NoMatches(args[1..]) else NoMatches(args)
  }

  function CheckErrors(table: seq<Entry>, counts: seq<nat>): seq<Error>
    requires |counts| == |table|
    decreases |table|
  {
    if table == [] then []
    else
      var n := |table| - 1;
      CheckErrors(table[..n], counts[..n])
      + if table[n].checks && counts[n] < table[n].mincount then [Error(EMINCOUNT, Of(n), None)] else []
  }

  /** An entry is reported exactly when it is checked and has too few values. */
  lemma {:induction false} CheckErrorsMeaning(table: seq<Entry>, counts: seq<nat>, t: nat)
    requires |counts| == |table|
    ensures Error(EMINCOUNT, Of(t), None) in CheckErrors(table, counts) <==>
            t < |table| && table[t].checks && counts[t] < table[t].mincount
    decreases |table|
  {
    if table != [] {
      CheckErrorsMeaning(table[..|table| - 1], counts[..|table| - 1], t);
    }
  }
}
