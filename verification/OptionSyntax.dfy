/** The syntax of command line options, as a recursive reference parser over the list of
    arguments: what a whole scan reports and which arguments it counts as options. */
module OptionSyntax {
  import opened Strings
  import opened Wrappers

  /** hasArg is 0 (no argument), 1 (required) or 2 (optional). */
  datatype LongOption = LongOption(name: string, hasArg: int, val: int)

  /** What one call reports.  `text` is the argument before the scan position after the call. */
  datatype Event =
    | Long(index: nat, arg: Option<string>, text: string)
    | Short(c: char, arg: Option<string>)
    | UnknownShort(c: char)
    | UnknownLong(text: string)
    | ExtraArgument(optopt: int, text: string)
    | MissingArgument(optopt: int, text: string)

  /** What a call leaves in the variable that tells its caller about a bad option. */
  function Optopt(before: int, event: Event): int {
    match event
    case UnknownShort(c) => c as int
    case UnknownLong(_) => 0
    case ExtraArgument(optopt, _) => optopt
    case MissingArgument(optopt, _) => optopt
    case _ => before
  }

  datatype Lookup = Found(index: nat) | Ambiguous | NotFound

  /** The option tables of one scan; without long options, "--x" is a cluster. */
  datatype Options = Options(short: string, long: Option<seq<LongOption>>, posixlyCorrect: bool)

  predicate IsNonOption(e: string) {
    |e| < 2 || e[0] != '-'
  }

  predicate IsLongElement(o: Options, e: string)
    requires !IsNonOption(e)
  {
    o.long.Some? && e[1] == '-'
  }

  // ---------------------------------------------------------------- short options

  function At(s: string, i: nat): char {
    if i < |s| then s[i] else '\0'
  }

  /** One option character of the cluster e: the event, what remains of the element, and
      whether the following argument was used. */
  function ShortOption(o: Options, e: string, rest: string, next: Option<string>): (Event, string, bool)
    requires rest != ""
  {
    var c, rest' := rest[0], rest[1..];
    var i := IndexOf(o.short, c);
    if i == |o.short| || c == ':' then (UnknownShort(c), rest', false)
    else if At(o.short, i + 1) != ':' then (Short(c, None), rest', false)
    else if rest' != "" then (Short(c, Some(rest')), "", false)
    else if At(o.short, i + 2) == ':' then (Short(c, None), "", false)
    else if next.None? then (MissingArgument(c as int, e), "", false)
    else (Short(c, next), "", true)
  }

  /** All options of a cluster, and the number of following arguments used (0 or 1). */
  function Cluster(o: Options, e: string, rest: string, following: seq<string>): (r: (seq<Event>, nat))
    ensures r.1 <= 1 && r.1 <= |following|
    decreases |rest|
  {
    if rest == "" then ([], 0)
    else
      var (event, rest', took) := ShortOption(o, e, rest, First(following));
      if rest' == "" then ([event], if took then 1 else 0)
      else
        var (events, n) := Cluster(o, e, rest', following);
        ([event] + events, n)
  }

  function First(args: seq<string>): Option<string> {
    if args == [] then None else Some(args[0])
  }

  // ----------------------------------------------------------------- long options

  predicate IsPrefix(p: string, s: string) {
    |p| <= |s| && s[..|p|] == p
  }

  predicate Matches(l: LongOption, name: string, exact: bool) {
    if exact then l.name == name else IsPrefix(name, l.name)
  }

  /** The first long option at or after `from` that matches; the table size if none does. */
  function FirstMatch(long: seq<LongOption>, name: string, exact: bool, from: nat): (i: nat)
    requires from <= |long|
    ensures from <= i <= |long|
    ensures i < |long| ==> Matches(long[i], name, exact)
    ensures forall j :: from <= j < i ==> !Matches(long[j], name, exact)
    decreases |long| - from
  {
    if from == |long| || Matches(long[from], name, exact) then from
    else FirstMatch(long, name, exact, from + 1)
  }

  /** An exact name wins; otherwise an abbreviation must match exactly one entry. */
  function LookUp(long: seq<LongOption>, name: string): Lookup {
    var x := FirstMatch(long, name, true, 0);
    var p := FirstMatch(long, name, false, 0);
    if x < |long| then Found(x)
    else if p == |long| then NotFound
    else if FirstMatch(long, name, false, p + 1) < |long| then Ambiguous
    else Found(p)
  }

  /** The event of a long option without its dashes, and whether the following argument
      was used. */
  function LongEvent(long: seq<LongOption>, text: string, next: Option<string>): (Event, bool) {
    var n := IndexOf(text, '=');
    var e := "--" + text;
    match LookUp(long, text[..n])
    case Ambiguous => (UnknownLong(e), false)
    case NotFound => (UnknownLong(e), false)
    case Found(i) =>
      assert i < |long|;
      if n < |text| then
        if long[i].hasArg != 0 then (Long(i, Some(text[n + 1..]), e), false) else (ExtraArgument(long[i].val, e), false)
      else if long[i].hasArg == 1 then
        if next.Some? then (Long(i, next, next.value), true) else (MissingArgument(long[i].val, e), false)
      else (Long(i, None, e), false)
  }

  // ------------------------------------------------------------ the whole command line

  /** What the scan of an argument list reports and how it divides the list. */
  datatype Parse = Parse(events: seq<Event>, options: seq<string>, nonoptions: seq<string>)

  /** The options of one element and the number of following arguments used. */
  function Element(o: Options, e: string, following: seq<string>): (r: (seq<Event>, nat))
    requires !IsNonOption(e)
    ensures r.1 <= |following|
  {
    if IsLongElement(o, e) then
      var (event, took) := LongEvent(o.long.value, e[2..], First(following));
      ([event], if took then 1 else 0)
    else Cluster(o, e, e[1..], following)
  }

  /** Non-options are collected behind the options, everything after "--" is a
      non-option, and with POSIXLY_CORRECT the first non-option ends the options. */
  function Reference(o: Options, args: seq<string>): Parse
    decreases |args|
  {
    if args == [] then Parse([], [], [])
    else if args[0] == "--" then Parse([], args[..1], args[1..])
    else if IsNonOption(args[0]) then
      if o.posixlyCorrect then Parse([], [], args)
      else
        var p := Reference(o, args[1..]);
        Parse(p.events, p.options, [args[0]] + p.nonoptions)
    else
      var (events, n) := Element(o, args[0], args[1..]);
      var p := Reference(o, args[1 + n..]);
      Parse(events + p.events, args[..1 + n] + p.options, p.nonoptions)
  }

  /** `whole` merges a and b, keeping the order inside each. */
  predicate Interleaves(a: seq<string>, b: seq<string>, whole: seq<string>) {
    if whole == [] then a == [] && b == []
    else
      || (a != [] && a[0] == whole[0] && Interleaves(a[1..], b, whole[1..]))
      || (b != [] && b[0] == whole[0] && Interleaves(a, b[1..], whole[1..]))
  }

  lemma {:induction false} InterleavesRight(b: seq<string>)
    ensures Interleaves([], b, b)
  {
    if b != [] {
      InterleavesRight(b[1..]);
    }
  }

  lemma InterleavesLeft(x: string, a: seq<string>, b: seq<string>, whole: seq<string>)
    requires Interleaves(a, b, whole)
    ensures Interleaves([x] + a, b, [x] + whole)
  {
    assert ([x] + a)[1..] == a && ([x] + whole)[1..] == whole;
  }

  /** The scan is a stable partition: nothing is lost or doubled, and both the options
      with their arguments and the non-options keep their order. */
  lemma {:induction false} ReferenceIsStable(o: Options, args: seq<string>)
    ensures var p := Reference(o, args);
      Interleaves(p.options, p.nonoptions, args)
    decreases |args|
  {
    if args == [] {
    } else if args[0] == "--" {
      InterleavesRight(args[1..]);
      InterleavesLeft(args[0], [], args[1..], args[1..]);
      assert args == [args[0]] + args[1..] && args[..1] == [args[0]] + [];
    } else if IsNonOption(args[0]) {
      if o.posixlyCorrect {
        InterleavesRight(args);
      } else {
        ReferenceIsStable(o, args[1..]);
      }
    } else {
      var n := Element(o, args[0], args[1..]).1;
      ElementUsesAtMostOne(o, args[0], args[1..]);
      var rest := args[1 + n..];
      ReferenceIsStable(o, rest);
      var q := Reference(o, rest);
      if n == 1 {
        InterleavesLeft(args[1], q.options, q.nonoptions, rest);
        assert [args[1]] + rest == args[1..];
      }
      var tail := args[1..1 + n];
      assert tail + q.options == if n == 1 then [args[1]] + q.options else q.options;
      InterleavesLeft(args[0], tail + q.options, q.nonoptions, args[1..]);
      assert [args[0]] + args[1..] == args;
      assert args[..1 + n] + q.options == [args[0]] + (tail + q.options);
    }
  }

  lemma ElementUsesAtMostOne(o: Options, e: string, following: seq<string>)
    requires !IsNonOption(e)
    ensures Element(o, e, following).1 <= 1
  {
  }

  // ------------------------------------------------ the beginning of a command line

  /** How far the scan of some arguments gets: it has ended, it goes on behind them, or their last
      option misses its argument. */
  datatype Status = Ended | Going | Waiting

  predicate LastIsMissing(events: seq<Event>) {
    events != [] && events[|events| - 1].MissingArgument?
  }

  function StatusOf(o: Options, args: seq<string>): Status
    decreases |args|
  {
    if args == [] then Going
    else if args[0] == "--" then Ended
    else if IsNonOption(args[0]) then
      if o.posixlyCorrect then Ended else StatusOf(o, args[1..])
    else
      var (events, n) := Element(o, args[0], args[1..]);
      if args[1..] == [] && LastIsMissing(events) then Waiting else StatusOf(o, args[1 + n..])
  }

  predicate TakesArgument(event: Event, arg: string) {
    (event.Short? || event.Long?) && event.arg == Some(arg)
  }

  /** More arguments behind it change nothing for an element that misses none. */
  lemma {:induction false} ClusterMore(o: Options, e: string, rest: string, following: seq<string>, more: seq<string>)
    requires following != [] || !LastIsMissing(Cluster(o, e, rest, following).0)
    ensures Cluster(o, e, rest, following + more) == Cluster(o, e, rest, following)
    decreases |rest|
  {
    if rest != "" {
      var (event, rest', took) := ShortOption(o, e, rest, First(following));
      if rest' != "" {
        assert ShortOption(o, e, rest, First(following + more)) == (event, rest', took);
        ClusterMore(o, e, rest', following, more);
      }
    }
  }

  lemma {:induction false} ClusterNotEmpty(o: Options, e: string, rest: string, following: seq<string>)
    requires rest != ""
    ensures Cluster(o, e, rest, following).0 != []
  {
  }

  /** An element that misses its argument takes the next one when there is one. */
  lemma {:induction false} ClusterCompleted(o: Options, e: string, rest: string, more: seq<string>)
    requires LastIsMissing(Cluster(o, e, rest, []).0) && more != []
    ensures var (events, n) := Cluster(o, e, rest, more);
      var missing := Cluster(o, e, rest, []).0;
      && n == 1 && |events| == |missing| && events[..|events| - 1] == missing[..|missing| - 1]
      && TakesArgument(events[|events| - 1], more[0])
    decreases |rest|
  {
    var (event, rest', took) := ShortOption(o, e, rest, None);
    if rest' != "" {
      assert ShortOption(o, e, rest, First(more)) == (event, rest', took);
      ClusterNotEmpty(o, e, rest', []);
      ClusterCompleted(o, e, rest', more);
    }
  }

  lemma ElementMore(o: Options, e: string, following: seq<string>, more: seq<string>)
    requires !IsNonOption(e)
    requires following != [] || !LastIsMissing(Element(o, e, following).0)
    ensures Element(o, e, following + more) == Element(o, e, following)
  {
    if !IsLongElement(o, e) {
      ClusterMore(o, e, e[1..], following, more);
    }
  }

  lemma ElementCompleted(o: Options, e: string, more: seq<string>)
    requires !IsNonOption(e) && LastIsMissing(Element(o, e, []).0) && more != []
    ensures var (events, n) := Element(o, e, more);
      var missing := Element(o, e, []).0;
      && n == 1 && |events| == |missing| && events[..|events| - 1] == missing[..|missing| - 1]
      && TakesArgument(events[|events| - 1], more[0])
  {
    if !IsLongElement(o, e) {
      ClusterCompleted(o, e, e[1..], more);
    }
  }

  /** Two parses in sequence. */
  function Then(p: Parse, q: Parse): Parse {
    Parse(p.events + q.events, p.options + q.options, p.nonoptions + q.nonoptions)
  }

  /** An option that misses its argument stands at the end of the arguments. */
  lemma MissingIsLast(o: Options, e: string, following: seq<string>)
    requires !IsNonOption(e) && following != []
    ensures !LastIsMissing(Element(o, e, following).0) && Element(o, e, following).0 != []
  {
    if !IsLongElement(o, e) {
      ClusterMissesNothing(o, e, e[1..], following);
    }
  }

  lemma {:induction false} ClusterMissesNothing(o: Options, e: string, rest: string, following: seq<string>)
    requires rest != "" && following != []
    ensures !LastIsMissing(Cluster(o, e, rest, following).0) && Cluster(o, e, rest, following).0 != []
    decreases |rest|
  {
    var (event, rest', took) := ShortOption(o, e, rest, First(following));
    if rest' != "" {
      ClusterMissesNothing(o, e, rest', following);
    }
  }

  /** What the argument that an option was waiting for makes of a parse. */
  predicate Completed(p: Parse, q: Parse, arg: string, rest: Parse) {
    var n := |p.events|;
    && n > 0 && |q.events| == n + |rest.events|
    && q.events[..n - 1] == p.events[..n - 1] && TakesArgument(q.events[n - 1], arg) && q.events[n..] == rest.events
    && q.options == p.options + [arg] + rest.options && q.nonoptions == p.nonoptions + rest.nonoptions
  }

  /** q is the parse of arguments that were parsed as p and more behind them. */
  predicate Continues(o: Options, status: Status, p: Parse, q: Parse, more: seq<string>) {
    match status
    case Ended => q == Parse(p.events, p.options, p.nonoptions + more)
    case Going => q == Then(p, Reference(o, more))
    case Waiting => more != [] ==> Completed(p, q, more[0], Reference(o, more[1..]))
  }

  lemma ContinuesBehind(o: Options, status: Status, first: Parse, p: Parse, q: Parse, more: seq<string>)
    requires Continues(o, status, p, q, more)
    ensures Continues(o, status, Then(first, p), Then(first, q), more)
  {
    hide Reference;
    if status == Waiting && more != [] {
      CompletedBehind(first, p, q, more[0], Reference(o, more[1..]));
    }
  }

  lemma CompletedBehind(first: Parse, p: Parse, q: Parse, arg: string, rest: Parse)
    requires Completed(p, q, arg, rest)
    ensures Completed(Then(first, p), Then(first, q), arg, rest)
  {
    var n, m := |p.events|, |first.events|;
    assert (first.events + q.events)[..m + n - 1] == first.events + q.events[..n - 1];
    assert (first.events + p.events)[..m + n - 1] == first.events + p.events[..n - 1];
    assert (first.events + q.events)[m + n..] == q.events[n..];
  }

  /** A command line is parsed piece by piece: behind arguments that end the scan everything is a
      non-option; otherwise the rest is parsed on its own, except that an option that misses its
      argument takes the first of it. */
  lemma {:induction false} ReferenceMore(o: Options, before: seq<string>, more: seq<string>)
    ensures Continues(o, StatusOf(o, before), Reference(o, before), Reference(o, before + more), more)
    decreases |before|
  {
    var all := before + more;
    if before == [] {
      assert all == more;
      var r := Reference(o, more);
      assert Then(Parse([], [], []), r) == r;
    } else if before[0] == "--" {
      assert all[..1] == before[..1] && all[1..] == before[1..] + more;
    } else if IsNonOption(before[0]) {
      assert all[1..] == before[1..] + more;
      if !o.posixlyCorrect {
        ReferenceMore(o, before[1..], more);
        hide Continues;
        ContinuesBehind(o, StatusOf(o, before[1..]), Parse([], [], [before[0]]),
                        Reference(o, before[1..]), Reference(o, before[1..] + more), more);
        Reassembled([], [], [before[0]], Reference(o, before[1..]));
        Reassembled([], [], [before[0]], Reference(o, before[1..] + more));
      }
    } else {
      hide Continues;
      var (events, n) := Element(o, before[0], before[1..]);
      if before[1..] == [] && LastIsMissing(events) {
        LastOptionCompleted(o, before, more);
      } else {
        ReferenceMore(o, before[1 + n..], more);
        ElementThen(o, before, more);
        ContinuesBehind(o, StatusOf(o, before[1 + n..]), Parse(events, before[..1 + n], []),
                        Reference(o, before[1 + n..]), Reference(o, before[1 + n..] + more), more);
      }
    }
  }

  lemma Reassembled(events: seq<Event>, options: seq<string>, nonoptions: seq<string>, p: Parse)
    ensures events == [] && options == [] ==>
      Then(Parse(events, options, nonoptions), p) == Parse(p.events, p.options, nonoptions + p.nonoptions)
    ensures nonoptions == [] ==>
      Then(Parse(events, options, nonoptions), p) == Parse(events + p.events, options + p.options, p.nonoptions)
  {
  }

  /** An element that misses nothing is parsed before the rest, with or without more arguments. */
  lemma ElementThen(o: Options, before: seq<string>, more: seq<string>)
    requires before != [] && before[0] != "--" && !IsNonOption(before[0])
    requires before[1..] != [] || !LastIsMissing(Element(o, before[0], []).0)
    ensures var (events, n) := Element(o, before[0], before[1..]);
      var first := Parse(events, before[..1 + n], []);
      && Reference(o, before) == Then(first, Reference(o, before[1 + n..]))
      && Reference(o, before + more) == Then(first, Reference(o, before[1 + n..] + more))
  {
    var all := before + more;
    var (events, n) := Element(o, before[0], before[1..]);
    assert all[0] == before[0] && all[1..] == before[1..] + more;
    ElementMore(o, before[0], before[1..], more);
    assert all[1 + n..] == before[1 + n..] + more && all[..1 + n] == before[..1 + n];
    Reassembled(events, before[..1 + n], [], Reference(o, before[1 + n..]));
    Reassembled(events, before[..1 + n], [], Reference(o, before[1 + n..] + more));
  }

  lemma LastOptionCompleted(o: Options, before: seq<string>, more: seq<string>)
    requires |before| == 1 && before[0] != "--" && !IsNonOption(before[0])
    requires LastIsMissing(Element(o, before[0], []).0)
    ensures Continues(o, Waiting, Reference(o, before), Reference(o, before + more), more)
  {
    var e := before[0];
    var (missing, n) := Element(o, e, []);
    assert before[1..] == [] && before[..1] == before;
    assert Reference(o, before) == Parse(missing, before, []);
    if more != [] {
      var all := before + more;
      ElementCompleted(o, e, more);
      var events := Element(o, e, more).0;
      assert all[0] == e && all[1..] == more && all[2..] == more[1..] && all[..2] == before + [more[0]];
      var rest := Reference(o, more[1..]);
      assert Reference(o, all) == Parse(events + rest.events, before + [more[0]] + rest.options, rest.nonoptions);
      assert (events + rest.events)[..|events| - 1] == events[..|events| - 1];
      assert (events + rest.events)[|events|..] == rest.events;
    }
  }

  /** Everything after a "--" that is no option's argument is a non-option, whatever stands before
      it; the arguments before it are parsed as if they were alone. */
  lemma AfterDashes(o: Options, before: seq<string>, after: seq<string>)
    requires StatusOf(o, before) == Going
    ensures var p := Reference(o, before);
      Reference(o, before + ["--"] + after) == Parse(p.events, p.options + ["--"], p.nonoptions + after)
  {
    var more := ["--"] + after;
    assert before + ["--"] + after == before + more;
    ReferenceMore(o, before, more);
    assert more[..1] == ["--"] && more[1..] == after;
  }

  /** A "--" that an option is waiting for is its argument, and the scan goes on behind it. */
  lemma DashesAsArgument(o: Options, before: seq<string>, after: seq<string>)
    requires StatusOf(o, before) == Waiting
    ensures Completed(Reference(o, before), Reference(o, before + ["--"] + after), "--", Reference(o, after))
  {
    var more := ["--"] + after;
    assert before + ["--"] + after == before + more;
    ReferenceMore(o, before, more);
    assert more[1..] == after;
  }

  /** A "--" ends the scan if and only if no option is waiting for it. */
  lemma {:induction false} DashesEndIff(o: Options, before: seq<string>)
    ensures StatusOf(o, before + ["--"]) == Ended <==> StatusOf(o, before) != Waiting
    decreases |before|
  {
    var all := before + ["--"];
    if before == [] {
      assert all == ["--"];
    } else if IsNonOption(before[0]) {
      assert all[1..] == before[1..] + ["--"];
      DashesEndIff(o, before[1..]);
    } else if before[0] != "--" {
      var e, following := before[0], before[1..];
      var (events, n) := Element(o, e, following);
      assert all[1..] == following + ["--"];
      if following == [] && LastIsMissing(events) {
        ElementCompleted(o, e, ["--"]);
        assert following + ["--"] == ["--"] && all[2..] == [];
      } else {
        ElementMore(o, e, following, ["--"]);
        assert all[1 + n..] == before[1 + n..] + ["--"];
        DashesEndIff(o, before[1 + n..]);
      }
    }
  }

  /** Without POSIXLY_CORRECT nothing but a "--" ends a scan early. */
  lemma {:induction false} OnlyDashesEnd(o: Options, args: seq<string>)
    requires !o.posixlyCorrect && "--" !in args
    ensures StatusOf(o, args) != Ended
    decreases |args|
  {
    if args != [] {
      var n := if IsNonOption(args[0]) then 0 else Element(o, args[0], args[1..]).1;
      assert forall e :: e in args[1 + n..] ==> e in args;
      OnlyDashesEnd(o, args[1 + n..]);
      assert args[0] in args;
    }
  }

  lemma LastOfBoth(first: seq<Event>, second: seq<Event>)
    ensures LastIsMissing(first + second) <==> LastIsMissing(if second == [] then first else second)
  {
    assert first + [] == first;
  }

  /** An option misses its argument exactly when the scan reports that last. */
  lemma {:induction false} WaitingIff(o: Options, args: seq<string>)
    ensures StatusOf(o, args) == Waiting <==> LastIsMissing(Reference(o, args).events)
    decreases |args|
  {
    if args == [] || args[0] == "--" {
    } else if IsNonOption(args[0]) {
      WaitingIff(o, args[1..]);
    } else {
      var (events, n) := Element(o, args[0], args[1..]);
      WaitingIff(o, args[1 + n..]);
      LastOfBoth(events, Reference(o, args[1 + n..]).events);
      if args[1..] != [] {
        MissingIsLast(o, args[0], args[1..]);
      }
    }
  }

  lemma LookUpMeaning(long: seq<LongOption>, name: string, i: nat)
    requires i < |long|
    ensures LookUp(long, name) == Found(i) <==>
      || (long[i].name == name && forall j :: 0 <= j < i ==> long[j].name != name)
      || ((forall j :: 0 <= j < |long| ==> long[j].name != name)
          && forall j :: 0 <= j < |long| ==>
               (|name| <= |long[j].name| && long[j].name[..|name|] == name <==> j == i))
  {
    var x := FirstMatch(long, name, true, 0);
    var p := FirstMatch(long, name, false, 0);
    assert forall j :: 0 <= j < |long| && long[j].name == name ==> Matches(long[j], name, true);
    assert forall j :: 0 <= j < |long| && IsPrefix(name, long[j].name) ==> Matches(long[j], name, false);
    if x == |long| && p < |long| {
      var q := FirstMatch(long, name, false, p + 1);
      assert q < |long| ==> IsPrefix(name, long[q].name);
      assert IsPrefix(name, long[p].name);
    }
  }
}
