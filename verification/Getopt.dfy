/** The argument scanner: it permutes argv in place, call by call, and reports one option
    per call. */
module Getopt {
  import opened OptionSyntax
  import opened Strings
  import opened Wrappers

  class Scanner {
    const argv: array<string>
    const options: Options
    var firstNonopt: nat
    var lastNonopt: nat
    var optind: nat
    var nextchar: string
    var optopt: int
    ghost const original: seq<string>
    ghost var events: seq<Event>

    /** A scan starts with optind zero; the scanner initialises itself in the first call.  Only
        `optopt` keeps what an earlier scan has left. */
    constructor (argv: array<string>, options: Options, optopt: int)
      requires argv.Length >= 1
      ensures this.argv == argv && this.options == options && original == argv[..] && this.optopt == optopt
      ensures optind == 0 && Valid()
    {
      this.optopt := optopt;
      this.argv, this.options, original := argv, options, argv[..];
      firstNonopt, lastNonopt, optind, nextchar, events := 0, 0, 0, "", [];
    }

    // ------------------------------------------------------------------ exchange

    /** Swaps the skipped non-options [firstNonopt, lastNonopt) with the options
        [lastNonopt, optind) that follow them. */
    method Exchange()
      requires firstNonopt <= lastNonopt <= optind <= argv.Length
      modifies this`firstNonopt, this`lastNonopt, argv
      ensures firstNonopt == old(firstNonopt) + (optind - old(lastNonopt)) && lastNonopt == optind
      ensures argv[..] == Exchanged(old(argv[..]), old(firstNonopt), old(lastNonopt), optind)
    {
      hide Exchanged, Swapped;
      var bottom: nat, middle: nat, top: nat := firstNonopt, lastNonopt, optind;
      ghost var goal := Exchanged(argv[..], bottom, middle, top);
      while top > middle && middle > bottom
        invariant bottom <= middle <= top <= argv.Length
        invariant Exchanged(argv[..], bottom, middle, top) == goal
        modifies argv
        decreases top - bottom
      {
        ghost var before := argv[..];
        if top - middle > middle - bottom {
          var len := middle - bottom;
          SwapBlocks(bottom, top - len, len);
          BottomShort(before, bottom, middle, top);
          top := top - len;
        } else {
          var len := top - middle;
          SwapBlocks(bottom, middle, len);
          TopShort(before, bottom, middle, top);
          bottom := bottom + len;
        }
      }
      NothingToExchange(argv[..], bottom, middle, top);
      firstNonopt := firstNonopt + (optind - lastNonopt);
      lastNonopt := optind;
    }

    method SwapBlocks(x: nat, y: nat, len: nat)
      requires x + len <= y && y + len <= argv.Length
      modifies argv
      ensures argv[..] == Swapped(old(argv[..]), x, y, len)
    {
      var i := 0;
      while i < len
        invariant 0 <= i <= len
        invariant forall j :: 0 <= j < argv.Length ==>
          argv[j] == if x <= j < x + i then old(argv[j - x + y])
                     else if y <= j < y + i then old(argv[j - y + x]) else old(argv[j])
      {
        var tem := argv[x + i];
        argv[x + i] := argv[y + i];
        argv[y + i] := tem;
        i := i + 1;
      }
      ghost var before := old(argv[..]);
      forall j | 0 <= j < argv.Length ensures argv[..][j] == Swapped(before, x, y, len)[j] {
        SwappedAt(before, x, y, len, j);
      }
      assert argv[..] == Swapped(before, x, y, len);
    }

    // ------------------------------------------------------------------ one call

    /** What is true of the state between two calls. */
    ghost predicate Valid()
      reads this, argv
    {
      && argv.Length >= 1
      && if optind == 0 then argv[..] == original && events == [] && nextchar == ""
         else ScanOk(options, original, argv[..], firstNonopt, lastNonopt, optind, nextchar, events)
    }

    /** What is true when a call has returned -1. */
    ghost predicate Finished()
      reads this, argv
    {
      FinalOk(options, original, argv[..], optind, events)
    }

    /** The text of an event is the argument before the scan position. */
    ghost predicate TextRead(event: Event)
      reads this, argv
    {
      event.Long? || event.UnknownLong? || event.ExtraArgument? || event.MissingArgument? ==>
        0 < optind <= argv.Length && event.text == argv[optind - 1]
    }

    /** One call of getopt: None stands for the return value -1. */
    method Next() returns (event: Option<Event>)
      requires Valid()
      modifies this, argv
      ensures event.None? ==> Finished() && events == old(events) && optopt == old(optopt)
      ensures event.Some? ==> Valid() && 0 < optind <= argv.Length && events == old(events) + [event.value]
      ensures event.Some? ==> optopt == Optopt(old(optopt), event.value) && TextRead(event.value)
    {
      if optind == 0 {
        firstNonopt, lastNonopt, optind, nextchar := 1, 1, 1, "";
        StartOfScan(options, argv[..]);
      }
      if nextchar == "" {
        var done := BeginElement();
        if done {
          return None;
        }
      }
      var e := Decode();
      event := Some(e);
    }

    /** Advances to the next option element, if there is one. */
    method BeginElement() returns (done: bool)
      requires nextchar == ""
      requires ScanOk(options, original, argv[..], firstNonopt, lastNonopt, optind, "", events)
      modifies this`firstNonopt, this`lastNonopt, this`optind, this`nextchar, argv
      ensures done ==> Finished()
      ensures !done ==> AtElement()
    {
      hide ScanOk, FinalOk;
      if !options.posixlyCorrect {
        SkipNonOptions();
      }
      done := CheckForEnd();
      if !done {
        nextchar := argv[optind][(if options.long.Some? && argv[optind][1] == '-' then 2 else 1)..];
        StartElement(options, original, argv[..], firstNonopt, lastNonopt, optind, events);
      }
    }

    /** The scan stands on an option element, of which `nextchar` is still to be read. */
    ghost predicate AtElement()
      reads this, argv
    {
      && optind < argv.Length && !IsNonOption(argv[optind])
      && if IsLongElement(options, argv[optind])
         then argv[optind] != "--" && nextchar == argv[optind][2..]
              && ScanOk(options, original, argv[..], firstNonopt, lastNonopt, optind, "", events)
         else nextchar != ""
              && ScanOk(options, original, argv[..], firstNonopt, lastNonopt, optind, nextchar, events)
    }

    method Decode() returns (event: Event)
      requires AtElement()
      modifies this`optind, this`nextchar, this`optopt, this`events
      ensures ScanOk(options, original, argv[..], firstNonopt, lastNonopt, optind, nextchar, events)
      ensures events == old(events) + [event] && optind > 0
      ensures optopt == Optopt(old(optopt), event) && TextRead(event)
    {
      hide ScanOk;
      if options.long.Some? && argv[optind][1] == '-' {
        event := DecodeLong();
      } else {
        event := DecodeShort();
      }
    }

    /** Moves options that were read behind skipped non-options in front of them, then
        skips further non-options. */
    method SkipNonOptions()
      requires !options.posixlyCorrect && nextchar == ""
      requires ScanOk(options, original, argv[..], firstNonopt, lastNonopt, optind, "", events)
      modifies this`firstNonopt, this`lastNonopt, this`optind, argv
      ensures ScanOk(options, original, argv[..], firstNonopt, lastNonopt, optind, "", events)
      ensures lastNonopt == optind && (optind < argv.Length ==> !IsNonOption(argv[optind]))
    {
      hide ScanOk;
      ExchangeStep(options, original, argv[..], firstNonopt, lastNonopt, optind, events);
      if firstNonopt != lastNonopt && lastNonopt != optind {
        Exchange();
      } else if lastNonopt != optind {
        firstNonopt := optind;
      }
      while optind < argv.Length && IsNonOption(argv[optind])
        invariant optind <= argv.Length
        invariant ScanOk(options, original, argv[..], firstNonopt, optind, optind, "", events)
        modifies this`optind
      {
        SkipStep(options, original, argv[..], firstNonopt, optind, events);
        optind := optind + 1;
      }
      lastNonopt := optind;
    }

    /** The argument "--", the end of argv and, with POSIXLY_CORRECT, a non-option end
        the scan; optind then points at the first non-option. */
    method CheckForEnd() returns (done: bool)
      requires nextchar == ""
      requires ScanOk(options, original, argv[..], firstNonopt, lastNonopt, optind, "", events)
      requires !options.posixlyCorrect ==> lastNonopt == optind && (optind < argv.Length ==> !IsNonOption(argv[optind]))
      modifies this`firstNonopt, this`lastNonopt, this`optind, argv
      ensures done ==> Finished()
      ensures !done ==> optind < argv.Length && !IsNonOption(argv[optind]) && argv[optind] != "--"
      ensures !done ==> ScanOk(options, original, argv[..], firstNonopt, lastNonopt, optind, "", events)
    {
      hide ScanOk, FinalOk, Exchanged;
      ScanBounds(options, original, argv[..], firstNonopt, lastNonopt, optind, "", events);
      if optind != argv.Length && argv[optind] == "--" {
        DashesStep(options, original, argv[..], firstNonopt, lastNonopt, optind, events);
        optind := optind + 1;
        if firstNonopt != lastNonopt && lastNonopt != optind {
          Exchange();
        } else if firstNonopt == lastNonopt {
          firstNonopt := optind;
        }
        lastNonopt := argv.Length;
        optind := argv.Length;
        if firstNonopt != lastNonopt {
          optind := firstNonopt;
        }
        return true;
      }
      if optind == argv.Length {
        EndStep(options, original, argv[..], firstNonopt, lastNonopt, events);
        if firstNonopt != lastNonopt {
          optind := firstNonopt;
        }
        return true;
      }
      if IsNonOption(argv[optind]) && options.posixlyCorrect {
        RequireOrderStep(options, original, argv[..], firstNonopt, lastNonopt, optind, events);
        return true;
      }
      return false;
    }

    /** Takes an option character off the cluster, with its argument if it has one. */
    method ReadShort() returns (event: Event)
      requires nextchar != "" && optind < argv.Length
      modifies this`optind, this`nextchar, this`optopt
      ensures optopt == Optopt(old(optopt), event) && TextRead(event)
      ensures var (event', rest, took) := ShortOption(options, argv[old(optind)], old(nextchar),
                                                      First(argv[old(optind) + 1..]));
        event == event' && nextchar == rest
        && optind == if rest != "" then old(optind) else old(optind) + 1 + if took then 1 else 0
    {
      var c := nextchar[0];
      nextchar := nextchar[1..];
      var temp := IndexOf(options.short, c);
      if nextchar == "" {
        optind := optind + 1;
      }
      if temp == |options.short| || c == ':' {
        optopt := c as int;
        event := UnknownShort(c);
      } else if At(options.short, temp + 1) == ':' {
        if nextchar != "" {
          event := Short(c, Some(nextchar));
          optind := optind + 1;
        } else if At(options.short, temp + 2) == ':' {
          event := Short(c, None);
        } else if optind == argv.Length {
          optopt := c as int;
          event := MissingArgument(c as int, argv[optind - 1]);
        } else {
          event := Short(c, Some(argv[optind]));
          optind := optind + 1;
        }
        nextchar := "";
      } else {
        event := Short(c, None);
      }
    }

    /** Reads one option character of a cluster. */
    method DecodeShort() returns (event: Event)
      requires nextchar != ""
      requires ScanOk(options, original, argv[..], firstNonopt, lastNonopt, optind, nextchar, events)
      modifies this`optind, this`nextchar, this`optopt, this`events
      ensures ScanOk(options, original, argv[..], firstNonopt, lastNonopt, optind, nextchar, events)
      ensures events == old(events) + [event] && optind > 0
      ensures optopt == Optopt(old(optopt), event) && TextRead(event)
    {
      hide ScanOk;
      ShortStep(options, original, argv[..], firstNonopt, lastNonopt, optind, nextchar, events);
      event := ReadShort();
      events := events + [event];
    }

    /** Reads a long option. */
    method DecodeLong() returns (event: Event)
      requires optind < argv.Length && !IsNonOption(argv[optind]) && argv[optind] != "--"
      requires IsLongElement(options, argv[optind]) && nextchar == argv[optind][2..]
      requires ScanOk(options, original, argv[..], firstNonopt, lastNonopt, optind, "", events)
      modifies this`optind, this`nextchar, this`optopt, this`events
      ensures ScanOk(options, original, argv[..], firstNonopt, lastNonopt, optind, nextchar, events)
      ensures events == old(events) + [event] && optind > 0
      ensures optopt == Optopt(old(optopt), event) && TextRead(event)
    {
      hide ScanOk;
      LongStep(options, original, argv[..], firstNonopt, lastNonopt, optind, events);
      event := ReadLong();
      events := events + [event];
    }

    /** Takes a long option, with its argument after '=' or in the next element. */
    method ReadLong() returns (event: Event)
      requires optind < argv.Length && !IsNonOption(argv[optind])
      requires IsLongElement(options, argv[optind]) && nextchar == argv[optind][2..]
      modifies this`optind, this`nextchar, this`optopt
      ensures optopt == Optopt(old(optopt), event) && TextRead(event) && nextchar == ""
      ensures var (event', took) := LongEvent(options.long.value, argv[old(optind)][2..],
                                              First(argv[old(optind) + 1..]));
        event == event' && optind == old(optind) + 1 + if took then 1 else 0
    {
      var long := options.long.value;
      var nameend := IndexOf(nextchar, '=');
      var found := FindLongOption(long, nextchar[..nameend]);
      optind := optind + 1;
      match found {
        case Ambiguous =>
          optopt := 0;
          event := UnknownLong(argv[optind - 1]);
        case NotFound =>
          optopt := 0;
          event := UnknownLong(argv[optind - 1]);
        case Found(i) =>
          if nameend < |nextchar| {
            if long[i].hasArg != 0 {
              event := Long(i, Some(nextchar[nameend + 1..]), argv[optind - 1]);
            } else {
              optopt := long[i].val;
              event := ExtraArgument(long[i].val, argv[optind - 1]);
            }
          } else if long[i].hasArg == 1 {
            if optind < argv.Length {
              event := Long(i, Some(argv[optind]), argv[optind]);
              optind := optind + 1;
            } else {
              optopt := long[i].val;
              event := MissingArgument(long[i].val, argv[optind - 1]);
            }
          } else {
            event := Long(i, None, argv[optind - 1]);
          }
      }
      nextchar := "";
    }

    /** Tests all long options for an exact or an abbreviated match. */
    method FindLongOption(long: seq<LongOption>, name: string) returns (r: Lookup)
      ensures r == LookUp(long, name)
    {
      var pfound: nat, ambig := |long|, false;
      var p := 0;
      while p < |long|
        invariant 0 <= p <= |long|
        invariant forall j :: 0 <= j < p ==> !Matches(long[j], name, true)
        invariant pfound == |long| ==> !ambig && forall j :: 0 <= j < p ==> !IsPrefix(name, long[j].name)
        invariant pfound < |long| ==> pfound < p && IsPrefix(name, long[pfound].name)
        invariant pfound < |long| ==> forall j :: 0 <= j < pfound ==> !IsPrefix(name, long[j].name)
        invariant pfound <= |long|
        invariant ambig <==> exists j :: pfound < j < p && j < |long| && IsPrefix(name, long[j].name)
      {
        if IsPrefix(name, long[p].name) {
          if |name| == |long[p].name| {
            assert long[p].name == name;
            return Found(p);
          } else if pfound == |long| {
            pfound := p;
          } else {
            ambig := true;
          }
        }
        p := p + 1;
      }
      r := if ambig then Ambiguous else if pfound < |long| then Found(pfound) else NotFound;
      assert FirstMatch(long, name, true, 0) == |long|;
      ghost var q := FirstMatch(long, name, false, 0);
      assert q < |long| ==> Matches(long[q], name, false);
      assert pfound < |long| ==> Matches(long[pfound], name, false);
      assert q == pfound;
      if q < |long| {
        ghost var q' := FirstMatch(long, name, false, q + 1);
        assert q' < |long| ==> Matches(long[q'], name, false);
      }
    }

    // ------------------------------------------------------------------ a whole scan

    /** The "--" at position i has ended the scan: the arguments before it are divided as if they
        were alone, and all behind it are non-options. */
    ghost predicate EndedAt(i: nat)
      requires 1 <= i < |original|
      reads this, argv
    {
      var p := Reference(options, original[1..i]);
      && argv[..] == original[..1] + p.options + ["--"] + p.nonoptions + original[i + 1..]
      && optind == 2 + |p.options|
      && events == p.events
    }

    /** All calls until the first -1. */
    method Run()
      requires optind == 0 && Valid()
      modifies this, argv
      ensures var p := Reference(options, original[1..]);
        && argv[..] == original[..1] + p.options + p.nonoptions
        && optind == 1 + |p.options|
        && events == p.events
      ensures forall i :: 1 <= i < |original| && original[i] == "--" && StatusOf(options, original[1..i]) == Going ==>
        EndedAt(i)
    {
      hide Reference, StatusOf;
      RunToEnd();
      Divided();
    }

    method RunToEnd()
      requires optind == 0 && Valid()
      modifies this, argv
      ensures argv.Length == |original| >= 1 && Finished()
    {
      ghost var all := Reference(options, original[1..]);
      var copt := Some(UnknownLong(""));
      StartOfScan(options, original);
      while copt.Some?
        invariant argv.Length == |original|
        invariant copt.Some? ==> Valid() && |events| <= |all.events|
        invariant copt.None? ==> Finished()
        decreases copt.Some?, |all.events| - |events|
      {
        copt := Next();
        if copt.Some? {
          EventsSoFar(options, original, argv[..], firstNonopt, lastNonopt, optind, nextchar, events);
        }
      }
    }

    lemma Divided()
      requires argv.Length == |original| >= 1 && Finished()
      ensures var p := Reference(options, original[1..]);
        && argv[..] == original[..1] + p.options + p.nonoptions
        && optind == 1 + |p.options|
        && events == p.events
      ensures forall i :: 1 <= i < |original| && original[i] == "--" && StatusOf(options, original[1..i]) == Going ==>
        EndedAt(i)
    {
      hide Reference, StatusOf;
      var p := Reference(options, original[1..]);
      assert argv[..] == argv[..1] + argv[1..optind] + argv[optind..];
      assert argv[..1] == original[..1];
      forall i | 1 <= i < |original| && original[i] == "--" && StatusOf(options, original[1..i]) == Going
        ensures EndedAt(i)
      {
        AfterDashes(options, original[1..i], original[i + 1..]);
        assert original[1..i] + ["--"] + original[i + 1..] == original[1..];
      }
    }
  }

  /** The sequence with its segments [first, middle) and [middle, last) exchanged. */
  function Exchanged(s: seq<string>, first: nat, middle: nat, last: nat): seq<string>
    requires first <= middle <= last <= |s|
  {
    s[..first] + s[middle..last] + s[first..middle] + s[last..]
  }

  function Swapped(s: seq<string>, x: nat, y: nat, len: nat): seq<string>
    requires x + len <= y && y + len <= |s|
  {
    s[..x] + s[y..y + len] + s[x + len..y] + s[x..x + len] + s[y + len..]
  }

  lemma SwappedAt(s: seq<string>, x: nat, y: nat, len: nat, i: nat)
    requires x + len <= y && y + len <= |s| && i < |s|
    ensures |Swapped(s, x, y, len)| == |s|
    ensures Swapped(s, x, y, len)[i]
         == if x <= i < x + len then s[i - x + y] else if y <= i < y + len then s[i - y + x] else s[i]
  {
  }

  lemma NothingToExchange(s: seq<string>, bottom: nat, middle: nat, top: nat)
    requires bottom <= middle <= top <= |s| && (top == middle || middle == bottom)
    ensures Exchanged(s, bottom, middle, top) == s
  {
  }

  lemma ExchangeOfParts(p: seq<string>, x: seq<string>, y: seq<string>, q: seq<string>)
    ensures Exchanged(p + x + y + q, |p|, |p| + |x|, |p| + |x| + |y|) == p + y + x + q
  {
    var s := p + x + y + q;
    assert s[..|p|] == p && s[|p|..|p| + |x|] == x;
    assert s[|p| + |x|..|p| + |x| + |y|] == y && s[|p| + |x| + |y|..] == q;
  }

  lemma SwapOfParts(p: seq<string>, x: seq<string>, mid: seq<string>, y: seq<string>, q: seq<string>)
    requires |x| == |y|
    ensures Swapped(p + x + mid + y + q, |p|, |p| + |x| + |mid|, |x|) == p + y + mid + x + q
  {
    var s, m, n := p + x + mid + y + q, |p| + |x|, |p| + |x| + |mid|;
    assert s[..|p|] == p && s[|p|..m] == x && s[m..n] == mid;
    assert s[n..n + |y|] == y && s[n + |y|..] == q;
  }

  lemma BottomShort(s: seq<string>, bottom: nat, middle: nat, top: nat)
    requires bottom <= middle <= top <= |s| && top - middle > middle - bottom
    ensures var len := middle - bottom;
      && |Swapped(s, bottom, top - len, len)| == |s|
      && Exchanged(Swapped(s, bottom, top - len, len), bottom, middle, top - len) == Exchanged(s, bottom, middle, top)
  {
    hide Exchanged, Swapped;
    var len := middle - bottom;
    var p, b, m1, m2, q := s[..bottom], s[bottom..middle], s[middle..top - len], s[top - len..top], s[top..];
    assert s == p + b + m1 + m2 + q;
    BottomShortParts(p, b, m1, m2, q);
  }

  lemma BottomShortParts(p: seq<string>, b: seq<string>, m1: seq<string>, m2: seq<string>, q: seq<string>)
    requires |b| == |m2|
    ensures var s, i, j := p + b + m1 + m2 + q, |p| + |b|, |p| + |b| + |m1|;
      && |Swapped(s, |p|, j, |b|)| == |s|
      && Exchanged(Swapped(s, |p|, j, |b|), |p|, i, j) == Exchanged(s, |p|, i, j + |b|)
  {
    hide Exchanged, Swapped;
    SwapOfParts(p, b, m1, m2, q);
    ExchangeOfParts(p, m2, m1, b + q);
    assert p + m2 + m1 + b + q == p + m2 + m1 + (b + q);
    ExchangeOfParts(p, b, m1 + m2, q);
    assert p + b + m1 + m2 + q == p + b + (m1 + m2) + q;
    assert p + m1 + m2 + (b + q) == p + (m1 + m2) + b + q;
  }

  lemma TopShort(s: seq<string>, bottom: nat, middle: nat, top: nat)
    requires bottom <= middle <= top <= |s| && top - middle <= middle - bottom
    ensures var len := top - middle;
      && |Swapped(s, bottom, middle, len)| == |s|
      && Exchanged(Swapped(s, bottom, middle, len), bottom + len, middle, top) == Exchanged(s, bottom, middle, top)
  {
    hide Exchanged, Swapped;
    var len := top - middle;
    var p, b1, b2, m, q := s[..bottom], s[bottom..bottom + len], s[bottom + len..middle], s[middle..top], s[top..];
    assert s == p + b1 + b2 + m + q;
    SwapOfParts(p, b1, b2, m, q);
    ExchangeOfParts(p + m, b2, b1, q);
    ExchangeOfParts(p, b1 + b2, m, q);
    assert p + b1 + b2 + m + q == p + (b1 + b2) + m + q;
    assert p + m + b1 + b2 + q == p + m + (b1 + b2) + q;
  }

  // ------------------------------------------------------ the rest of a command line

  function Prepended(events: seq<Event>, opts: seq<string>, nonopts: seq<string>, rest: Parse): Parse {
    Parse(events + rest.events, opts + rest.options, nonopts + rest.nonoptions)
  }

  /** What is still to come when `nextchar` is left of the first element of `args`. */
  function Remainder(o: Options, nextchar: string, args: seq<string>): Parse
    requires nextchar != "" ==> args != []
  {
    if nextchar == "" then Reference(o, args)
    else
      var (events, n) := Cluster(o, args[0], nextchar, args[1..]);
      var p := Reference(o, args[1 + n..]);
      Parse(events + p.events, args[..1 + n] + p.options, p.nonoptions)
  }

  /** The state of a scan: the options read so far stand in two blocks around the skipped
      non-options, and the reference parse of the original arguments consists of what has
      been reported so far and the parse of what remains. */
  ghost predicate ScanOk(o: Options, original: seq<string>, s: seq<string>, first: nat, last: nat,
                         optind: nat, nextchar: string, events: seq<Event>)
  {
    && |s| == |original| && 1 <= first <= last <= optind <= |s|
    && s[0] == original[0]
    && (nextchar != "" ==> optind < |s| && !IsNonOption(s[optind]) && !IsLongElement(o, s[optind]))
    && (o.posixlyCorrect ==> first == last)
    && Reference(o, original[1..])
       == Prepended(events, s[1..first] + s[last..optind], s[first..last], Remainder(o, nextchar, s[optind..]))
  }

  ghost predicate FinalOk(o: Options, original: seq<string>, s: seq<string>, optind: nat, events: seq<Event>) {
    && |s| == |original| && 1 <= optind <= |s|
    && s[0] == original[0]
    && Reference(o, original[1..]) == Parse(events, s[1..optind], s[optind..])
  }

  lemma ScanBounds(o: Options, original: seq<string>, s: seq<string>, first: nat, last: nat, optind: nat,
                   nextchar: string, events: seq<Event>)
    requires ScanOk(o, original, s, first, last, optind, nextchar, events)
    ensures 1 <= first <= last <= optind <= |s| && (o.posixlyCorrect ==> first == last)
  {
  }

  lemma StartOfScan(o: Options, original: seq<string>)
    requires |original| >= 1
    ensures ScanOk(o, original, original, 1, 1, 1, "", [])
  {
    assert original[1..1] + original[1..1] == [];
  }

  lemma ExchangeStep(o: Options, original: seq<string>, s: seq<string>, first: nat, last: nat, optind: nat,
                     events: seq<Event>)
    requires ScanOk(o, original, s, first, last, optind, "", events) && !o.posixlyCorrect
    ensures 1 <= first <= last <= optind <= |s|
    ensures ScanOk(o, original, Exchanged(s, first, last, optind), first + (optind - last), optind, optind, "", events)
    ensures first == last || last == optind ==> Exchanged(s, first, last, optind) == s
  {
    hide Reference, Remainder;
    var t := Exchanged(s, first, last, optind);
    var p, n, q := s[..first], s[first..last], s[last..optind];
    assert t == p + q + n + s[optind..];
    var f := first + (optind - last);
    assert t[1..f] == s[1..first] + q && t[f..optind] == n && t[optind..] == s[optind..];
    assert t[1..f] + t[optind..optind] == s[1..first] + q;
    if first == last || last == optind {
      NothingToExchange(s, first, last, optind);
    }
  }

  lemma SkipStep(o: Options, original: seq<string>, s: seq<string>, first: nat, optind: nat, events: seq<Event>)
    requires ScanOk(o, original, s, first, optind, optind, "", events) && !o.posixlyCorrect
    requires optind < |s| && IsNonOption(s[optind])
    ensures ScanOk(o, original, s, first, optind + 1, optind + 1, "", events)
  {
    assert s[optind..][1..] == s[optind + 1..];
    assert s[first..optind + 1] == s[first..optind] + [s[optind]];
    assert s[1..first] + s[optind + 1..optind + 1] == s[1..first] + s[optind..optind];
    var p := Reference(o, s[optind + 1..]);
    assert s[first..optind] + ([s[optind]] + p.nonoptions) == s[first..optind + 1] + p.nonoptions;
  }

  lemma DashesStep(o: Options, original: seq<string>, s: seq<string>, first: nat, last: nat, optind: nat,
                   events: seq<Event>)
    requires ScanOk(o, original, s, first, last, optind, "", events)
    requires optind < |s| && s[optind] == "--" && (first == last || last == optind)
    ensures 1 <= first <= last <= optind
    ensures FinalOk(o, original, Exchanged(s, first, last, optind + 1), first + (optind + 1 - last), events)
    ensures first == last ==> Exchanged(s, first, last, optind + 1) == s
  {
    ReferenceDashes(o, s[optind..]);
    hide Reference, Exchanged, Remainder;
    DashesMoved(s, first, last, optind);
    assert s[optind..][..1] == ["--"] && s[optind..][1..] == s[optind + 1..];
    if first == last {
      NothingToExchange(s, first, last, optind + 1);
    }
  }

  lemma DashesMoved(s: seq<string>, first: nat, last: nat, optind: nat)
    requires 1 <= first <= last <= optind < |s|
    ensures var t := Exchanged(s, first, last, optind + 1);
      var f := first + (optind + 1 - last);
      && |t| == |s| && t[0] == s[0]
      && t[1..f] == s[1..first] + s[last..optind] + [s[optind]]
      && t[f..] == s[first..last] + s[optind + 1..]
  {
    var t := Exchanged(s, first, last, optind + 1);
    var n, q := s[first..last], s[last..optind + 1];
    assert q == s[last..optind] + [s[optind]];
    assert t == s[..first] + q + n + s[optind + 1..];
  }

  lemma ReferenceDashes(o: Options, args: seq<string>)
    requires args != [] && args[0] == "--"
    ensures Remainder(o, "", args) == Parse([], args[..1], args[1..])
  {
  }

  lemma EndStep(o: Options, original: seq<string>, s: seq<string>, first: nat, last: nat, events: seq<Event>)
    requires ScanOk(o, original, s, first, last, |s|, "", events) && (first == last || last == |s|)
    ensures FinalOk(o, original, s, if first != last then first else |s|, events)
  {
    assert s[|s|..] == [];
    if first == last {
      assert s[1..first] + s[first..|s|] == s[1..|s|];
    }
  }

  lemma RequireOrderStep(o: Options, original: seq<string>, s: seq<string>, first: nat, last: nat, optind: nat,
                         events: seq<Event>)
    requires ScanOk(o, original, s, first, last, optind, "", events)
    requires o.posixlyCorrect && optind < |s| && IsNonOption(s[optind])
    ensures FinalOk(o, original, s, optind, events)
  {
    assert s[1..first] + s[first..optind] == s[1..optind];
    assert s[optind..][0] == s[optind];
  }

  lemma StartElement(o: Options, original: seq<string>, s: seq<string>, first: nat, last: nat, optind: nat,
                     events: seq<Event>)
    requires ScanOk(o, original, s, first, last, optind, "", events)
    requires optind < |s| && !IsNonOption(s[optind]) && s[optind] != "--"
    ensures !IsLongElement(o, s[optind]) ==>
      ScanOk(o, original, s, first, last, optind, s[optind][1..], events)
  {
    assert s[optind..][0] == s[optind];
  }

  lemma ShortStep(o: Options, original: seq<string>, s: seq<string>, first: nat, last: nat, optind: nat,
                  nextchar: string, events: seq<Event>)
    requires ScanOk(o, original, s, first, last, optind, nextchar, events) && nextchar != ""
    ensures optind < |s|
    ensures var (event, rest, took) := ShortOption(o, s[optind], nextchar, First(s[optind + 1..]));
      var optind' := if rest != "" then optind else optind + 1 + if took then 1 else 0;
      ScanOk(o, original, s, first, last, optind', rest, events + [event])
  {
    var (event, rest, took) := ShortOption(o, s[optind], nextchar, First(s[optind + 1..]));
    if rest == "" {
      LastOfCluster(o, original, s, first, last, optind, nextchar, events);
    } else {
      InsideCluster(o, original, s, first, last, optind, nextchar, events);
    }
  }

  lemma LastOfCluster(o: Options, original: seq<string>, s: seq<string>, first: nat, last: nat, optind: nat,
                      nextchar: string, events: seq<Event>)
    requires ScanOk(o, original, s, first, last, optind, nextchar, events) && nextchar != ""
    requires ShortOption(o, s[optind], nextchar, First(s[optind + 1..])).1 == ""
    ensures var (event, rest, took) := ShortOption(o, s[optind], nextchar, First(s[optind + 1..]));
      ScanOk(o, original, s, first, last, optind + 1 + if took then 1 else 0, "", events + [event])
  {
    hide Remainder, ShortOption, First;
    var args := s[optind..];
    assert args[1..] == s[optind + 1..];
    var (event, rest, took) := ShortOption(o, args[0], nextchar, First(args[1..]));
    var n := if took then 1 else 0;
    RemainderOfLast(o, nextchar, args);
    assert args[1 + n..] == s[optind + 1 + n..];
    ElementDone(s, first, last, optind, n, events, event, Remainder(o, "", s[optind + 1 + n..]));
  }

  lemma RemainderOfLast(o: Options, nextchar: string, args: seq<string>)
    requires args != [] && nextchar != "" && ShortOption(o, args[0], nextchar, First(args[1..])).1 == ""
    ensures var (event, rest, took) := ShortOption(o, args[0], nextchar, First(args[1..]));
      var n := if took then 1 else 0;
      && 1 + n <= |args|
      && var p := Remainder(o, "", args[1 + n..]);
         Remainder(o, nextchar, args) == Parse([event] + p.events, args[..1 + n] + p.options, p.nonoptions)
  {
  }

  /** An element and its n separate arguments move from what remains to what was read. */
  lemma ElementDone(s: seq<string>, first: nat, last: nat, optind: nat, n: nat, events: seq<Event>,
                    event: Event, p: Parse)
    requires 1 <= first <= last <= optind && optind + 1 + n <= |s|
    ensures Prepended(events, s[1..first] + s[last..optind], s[first..last],
                   Parse([event] + p.events, s[optind..][..1 + n] + p.options, p.nonoptions))
         == Prepended(events + [event], s[1..first] + s[last..optind + 1 + n], s[first..last], p)
  {
    assert s[last..optind + 1 + n] == s[last..optind] + s[optind..][..1 + n];
    assert s[1..first] + s[last..optind] + (s[optind..][..1 + n] + p.options)
        == s[1..first] + s[last..optind + 1 + n] + p.options;
    assert events + ([event] + p.events) == events + [event] + p.events;
  }

  lemma InsideCluster(o: Options, original: seq<string>, s: seq<string>, first: nat, last: nat, optind: nat,
                      nextchar: string, events: seq<Event>)
    requires ScanOk(o, original, s, first, last, optind, nextchar, events) && nextchar != ""
    requires ShortOption(o, s[optind], nextchar, First(s[optind + 1..])).1 != ""
    ensures var (event, rest, took) := ShortOption(o, s[optind], nextchar, First(s[optind + 1..]));
      ScanOk(o, original, s, first, last, optind, rest, events + [event])
  {
    var args := s[optind..];
    assert args[1..] == s[optind + 1..];
    var (event, rest, took) := ShortOption(o, args[0], nextchar, First(args[1..]));
    var (more, n) := Cluster(o, args[0], rest, args[1..]);
    assert Cluster(o, args[0], nextchar, args[1..]) == ([event] + more, n);
    var p := Reference(o, args[1 + n..]);
    assert events + (([event] + more) + p.events) == events + [event] + (more + p.events);
  }

  lemma LongStep(o: Options, original: seq<string>, s: seq<string>, first: nat, last: nat, optind: nat,
                 events: seq<Event>)
    requires ScanOk(o, original, s, first, last, optind, "", events)
    requires optind < |s| && !IsNonOption(s[optind]) && s[optind] != "--" && IsLongElement(o, s[optind])
    ensures var (event, took) := LongEvent(o.long.value, s[optind][2..], First(s[optind + 1..]));
      ScanOk(o, original, s, first, last, optind + 1 + if took then 1 else 0, "", events + [event])
  {
    var args := s[optind..];
    assert args[0] == s[optind] && args[1..] == s[optind + 1..];
    var (event, took) := LongEvent(o.long.value, s[optind][2..], First(args[1..]));
    var n := if took then 1 else 0;
    assert Element(o, args[0], args[1..]) == ([event], n);
    assert args[1 + n..] == s[optind + 1 + n..];
    var p := Reference(o, s[optind + 1 + n..]);
    assert Reference(o, args) == Parse([event] + p.events, args[..1 + n] + p.options, p.nonoptions);
    hide Reference, Element, LongEvent, First;
    ElementDone(s, first, last, optind, n, events, event, p);
  }

  lemma EventsSoFar(o: Options, original: seq<string>, s: seq<string>, first: nat, last: nat, optind: nat,
                    nextchar: string, events: seq<Event>)
    requires ScanOk(o, original, s, first, last, optind, nextchar, events)
    ensures |events| <= |Reference(o, original[1..]).events|
  {
  }
}
