/** The spellings of options: clusters of short options, and arguments in the same element or in the
    next one. */
module Spellings {
  import opened OptionSyntax
  import opened Strings
  import opened Wrappers

  /** A text without a dash in front is no option, and neither is the dash alone. */
  lemma PlainArgument(o: Options, x: string, rest: seq<string>)
    requires x == "" || x == "-" || x[0] != '-'
    ensures var p := Reference(o, rest);
      Reference(o, [x] + rest) == if o.posixlyCorrect then Parse([], [], [x] + rest)
                                  else Parse(p.events, p.options, [x] + p.nonoptions)
  {
    assert ([x] + rest)[1..] == rest;
  }

  /** The option character takes no argument; it need not be declared. */
  predicate TakesNone(o: Options, c: char) {
    c == ':' || c !in o.short || At(o.short, IndexOf(o.short, c) + 1) != ':'
  }

  /** It takes one, or may take one. */
  predicate TakesOne(o: Options, c: char, optional: bool) {
    && c != ':' && c in o.short && At(o.short, IndexOf(o.short, c) + 1) == ':'
    && (At(o.short, IndexOf(o.short, c) + 2) == ':' <==> optional)
  }

  /** What characters without arguments report. */
  function FlagEvents(o: Options, w: string): (r: seq<Event>)
    ensures |r| == |w|
    ensures forall i :: 0 <= i < |w| ==>
      r[i] == if w[i] != ':' && w[i] in o.short then Short(w[i], None) else UnknownShort(w[i])
  {
    seq(|w|, i requires 0 <= i < |w| =>
      if w[i] != ':' && w[i] in o.short then Short(w[i], None) else UnknownShort(w[i]))
  }

  /** The characters before another one are reported in order. */
  lemma {:induction false} FlagsFirst(o: Options, e: string, w: string, tail: string, following: seq<string>)
    requires forall c :: c in w ==> TakesNone(o, c)
    ensures var (events, n) := Cluster(o, e, tail, following);
      Cluster(o, e, w + tail, following) == (FlagEvents(o, w) + events, n)
    decreases |w|
  {
    if w == "" {
      assert w + tail == tail && FlagEvents(o, w) == [];
      assert [] + Cluster(o, e, tail, following).0 == Cluster(o, e, tail, following).0;
    } else {
      hide TakesNone, Cluster, ShortOption, FlagEvents;
      FlagsFirst(o, e, w[1..], tail, following);
      FlagStep(o, e, w[0], w[1..] + tail, following);
      assert w + tail == [w[0]] + (w[1..] + tail);
      FlagEventsStep(o, w, Cluster(o, e, tail, following).0);
    }
  }

  lemma FlagEventsStep(o: Options, w: string, events: seq<Event>)
    requires w != ""
    ensures [if w[0] != ':' && w[0] in o.short then Short(w[0], None) else UnknownShort(w[0])]
            + (FlagEvents(o, w[1..]) + events) == FlagEvents(o, w) + events
  {
    assert FlagEvents(o, w) == [FlagEvents(o, w)[0]] + FlagEvents(o, w[1..]);
  }

  lemma FlagStep(o: Options, e: string, c: char, rest: string, following: seq<string>)
    requires TakesNone(o, c)
    ensures var (events, n) := Cluster(o, e, rest, following);
      Cluster(o, e, [c] + rest, following)
      == ([if c != ':' && c in o.short then Short(c, None) else UnknownShort(c)] + events, n)
  {
    hide TakesNone;
    OneFlag(o, e, c, rest, First(following));
    hide ShortOption;
    var event := if c != ':' && c in o.short then Short(c, None) else UnknownShort(c);
    assert [event] + [] == [event];
  }

  lemma OneFlag(o: Options, e: string, c: char, rest: string, next: Option<string>)
    requires TakesNone(o, c)
    ensures ShortOption(o, e, [c] + rest, next)
         == (if c != ':' && c in o.short then Short(c, None) else UnknownShort(c), rest, false)
  {
    assert ([c] + rest)[0] == c && ([c] + rest)[1..] == rest;
    if c !in o.short {
      IndexOfAbsent(o.short, c);
    }
  }

  /** One option character at the end of a cluster. */
  lemma LastOption(o: Options, e: string, c: char, v: string, optional: bool, following: seq<string>)
    requires TakesOne(o, c, optional)
    ensures Cluster(o, e, [c] + v, following) ==
      if v != "" then ([Short(c, Some(v))], 0)
      else if optional then ([Short(c, None)], 0)
      else if following == [] then ([MissingArgument(c as int, e)], 0)
      else ([Short(c, Some(following[0]))], 1)
  {
    assert ([c] + v)[0] == c && ([c] + v)[1..] == v;
    assert [c] + "" == [c];
  }

  /** A cluster as an element of the command line. */
  lemma ClusterElement(o: Options, w: string, args: seq<string>)
    requires w != "" && w[0] != '-' && args != [] && args[0] == "-" + w
    ensures var (events, n) := Cluster(o, args[0], w, args[1..]);
      Reference(o, args) == Then(Parse(events, args[..1 + n], []), Reference(o, args[1 + n..]))
  {
    hide Cluster, Reference;
    assert args[0][1..] == w && args[0][1] == w[0];
    OptionElement(o, args);
  }

  lemma OptionElement(o: Options, args: seq<string>)
    requires args != [] && !IsNonOption(args[0]) && args[0] != "--"
    ensures var (events, n) := Element(o, args[0], args[1..]);
      Reference(o, args) == Then(Parse(events, args[..1 + n], []), Reference(o, args[1 + n..]))
  {
    hide Element, IsNonOption;
    var (events, n) := Element(o, args[0], args[1..]);
    Reassembled(events, args[..1 + n], [], Reference(o, args[1 + n..]));
  }

  /** The argument of a short option, behind any characters that take none, may be written in the same
      element or, if it is required, as the next one. */
  lemma ShortSpellings(o: Options, w: string, c: char, optional: bool, v: string, rest: seq<string>)
    requires (w + [c])[0] != '-' && TakesOne(o, c, optional) && forall f :: f in w ==> TakesNone(o, f)
    requires v != ""
    ensures Reference(o, ["-" + w + [c] + v] + rest)
         == Then(Parse(FlagEvents(o, w) + [Short(c, Some(v))], ["-" + w + [c] + v], []), Reference(o, rest))
    ensures !optional ==>
      Reference(o, ["-" + w + [c], v] + rest)
      == Then(Parse(FlagEvents(o, w) + [Short(c, Some(v))], ["-" + w + [c], v], []), Reference(o, rest))
    ensures optional ==>
      Reference(o, ["-" + w + [c]] + rest)
      == Then(Parse(FlagEvents(o, w) + [Short(c, None)], ["-" + w + [c]], []), Reference(o, rest))
    ensures !optional ==>
      Reference(o, ["-" + w + [c]]).events == FlagEvents(o, w) + [MissingArgument(c as int, "-" + w + [c])]
  {
    hide TakesOne, TakesNone, FlagEvents, Cluster;
    SpelledTogether(o, w, c, optional, v, rest);
    SpelledAlone(o, w, c, optional, [v] + rest);
    SpelledAlone(o, w, c, optional, rest);
    SpelledAlone(o, w, c, optional, []);
    assert ["-" + w + [c]] + ([v] + rest) == ["-" + w + [c], v] + rest && ([v] + rest)[1..] == rest;
    assert ["-" + w + [c]] + [] == ["-" + w + [c]];
    NothingLeft(o);
  }

  lemma NothingLeft(o: Options)
    ensures Reference(o, []) == Parse([], [], [])
  {
  }

  lemma SpelledTogether(o: Options, w: string, c: char, optional: bool, v: string, rest: seq<string>)
    requires (w + [c])[0] != '-' && TakesOne(o, c, optional) && forall f :: f in w ==> TakesNone(o, f)
    requires v != ""
    ensures Reference(o, ["-" + w + [c] + v] + rest)
         == Then(Parse(FlagEvents(o, w) + [Short(c, Some(v))], ["-" + w + [c] + v], []), Reference(o, rest))
  {
    hide TakesOne, TakesNone, FlagEvents, Cluster, Reference;
    var e := "-" + w + [c] + v;
    var args := [e] + rest;
    FlagsFirst(o, e, w, [c] + v, rest);
    LastOption(o, e, c, v, optional, rest);
    assert e == "-" + (w + ([c] + v)) && args[1..] == rest && args[..1] == [e];
    ClusterElement(o, w + ([c] + v), args);
  }

  lemma SpelledAlone(o: Options, w: string, c: char, optional: bool, rest: seq<string>)
    requires (w + [c])[0] != '-' && TakesOne(o, c, optional) && forall f :: f in w ==> TakesNone(o, f)
    ensures var e := "-" + w + [c];
      Reference(o, [e] + rest) ==
      if optional then Then(Parse(FlagEvents(o, w) + [Short(c, None)], [e], []), Reference(o, rest))
      else if rest == [] then
        Then(Parse(FlagEvents(o, w) + [MissingArgument(c as int, e)], [e], []), Reference(o, []))
      else Then(Parse(FlagEvents(o, w) + [Short(c, Some(rest[0]))], [e, rest[0]], []), Reference(o, rest[1..]))
  {
    hide TakesOne, TakesNone, FlagEvents, Cluster, Reference;
    var e := "-" + w + [c];
    var args := [e] + rest;
    FlagsFirst(o, e, w, [c], rest);
    LastOption(o, e, c, "", optional, rest);
    assert [c] + "" == [c] && e == "-" + (w + [c]) && args[1..] == rest && args[..1] == [e];
    assert rest != [] ==> args[..2] == [e, rest[0]] && args[2..] == rest[1..];
    ClusterElement(o, w + [c], args);
  }

  /** Characters without arguments are reported one by one, declared or not. */
  lemma FlagsOnly(o: Options, w: string, rest: seq<string>)
    requires w != "" && w[0] != '-' && forall f :: f in w ==> TakesNone(o, f)
    ensures Reference(o, ["-" + w] + rest) == Then(Parse(FlagEvents(o, w), ["-" + w], []), Reference(o, rest))
  {
    hide TakesNone, FlagEvents, Reference;
    var e := "-" + w;
    var args := [e] + rest;
    FlagsFirst(o, e, w, "", rest);
    assert w + "" == w && FlagEvents(o, w) + [] == FlagEvents(o, w);
    assert args[1..] == rest && args[..1] == [e];
    ClusterElement(o, w, args);
  }

  /** A long option as an element of the command line. */
  lemma LongElement(o: Options, text: string, args: seq<string>)
    requires o.long.Some? && text != "" && args != [] && args[0] == "--" + text
    ensures var (event, took) := LongEvent(o.long.value, text, First(args[1..]));
      var n := if took then 1 else 0;
      n < |args| && Reference(o, args) == Then(Parse([event], args[..1 + n], []), Reference(o, args[1 + n..]))
  {
    hide LongEvent, Reference, Cluster;
    var e := args[0];
    assert e[2..] == text && e[1] == '-' && |e| > 2;
    OptionElement(o, args);
  }

  lemma LongWithValue(long: seq<LongOption>, name: string, i: nat, v: string, next: Option<string>)
    requires '=' !in name && i < |long| && LookUp(long, name) == Found(i)
    ensures LongEvent(long, name + "=" + v, next) == (
      if long[i].hasArg != 0 then Long(i, Some(v), "--" + (name + "=" + v))
      else ExtraArgument(long[i].val, "--" + (name + "=" + v)), false)
  {
    hide LookUp;
    var text := name + "=" + v;
    IndexOfAt(name, '=', v);
    assert text == name + ['='] + v && text[..|name|] == name && text[|name| + 1..] == v;
  }

  lemma LongWithoutValue(long: seq<LongOption>, name: string, i: nat, next: Option<string>)
    requires '=' !in name && i < |long| && LookUp(long, name) == Found(i)
    ensures LongEvent(long, name, next) ==
      if long[i].hasArg != 1 then (Long(i, None, "--" + name), false)
      else if next.None? then (MissingArgument(long[i].val, "--" + name), false)
      else (Long(i, next, next.value), true)
  {
    hide LookUp;
    IndexOfAbsent(name, '=');
    assert name[..|name|] == name;
  }

  /** The argument of a long option stands behind a '=' or, if it is required, in the next element. */
  lemma LongSpellings(o: Options, name: string, i: nat, v: string, rest: seq<string>)
    requires o.long.Some? && '=' !in name && i < |o.long.value| && LookUp(o.long.value, name) == Found(i)
    ensures var e, l := "--" + (name + "=" + v), o.long.value[i];
      Reference(o, [e] + rest)
      == Then(Parse([if l.hasArg != 0 then Long(i, Some(v), e) else ExtraArgument(l.val, e)], [e], []),
              Reference(o, rest))
    ensures name != "" && o.long.value[i].hasArg == 1 ==>
      Reference(o, ["--" + name, v] + rest)
      == Then(Parse([Long(i, Some(v), v)], ["--" + name, v], []), Reference(o, rest))
    ensures name != "" && o.long.value[i].hasArg == 1 ==>
      Reference(o, ["--" + name]).events == [MissingArgument(o.long.value[i].val, "--" + name)]
    ensures name != "" && o.long.value[i].hasArg != 1 ==>
      Reference(o, ["--" + name] + rest)
      == Then(Parse([Long(i, None, "--" + name)], ["--" + name], []), Reference(o, rest))
  {
    hide LookUp, LongEvent, Reference;
    var text, long := name + "=" + v, o.long.value;
    LongWithValue(long, name, i, v, First(rest));
    LongElement(o, text, ["--" + text] + rest);
    assert (["--" + text] + rest)[1..] == rest && (["--" + text] + rest)[..1] == ["--" + text];
    if name != "" {
      NothingLeft(o);
      LongAlone(o, name, i, [v] + rest);
      LongAlone(o, name, i, rest);
      LongAlone(o, name, i, []);
      assert ["--" + name, v] + rest == ["--" + name] + ([v] + rest) && ([v] + rest)[1..] == rest;
      assert ["--" + name] + [] == ["--" + name];
    }
  }

  /** A name that no long option has, or that abbreviates several, is refused; no argument is taken. */
  lemma LongRefused(o: Options, name: string, v: string, rest: seq<string>)
    requires o.long.Some? && '=' !in name && !LookUp(o.long.value, name).Found?
    ensures var e := "--" + (name + "=" + v);
      Reference(o, [e] + rest) == Then(Parse([UnknownLong(e)], [e], []), Reference(o, rest))
    ensures name != "" ==>
      Reference(o, ["--" + name] + rest)
      == Then(Parse([UnknownLong("--" + name)], ["--" + name], []), Reference(o, rest))
  {
    hide LookUp, Reference;
    var text := name + "=" + v;
    IndexOfAt(name, '=', v);
    assert text == name + ['='] + v && text[..|name|] == name;
    assert LongEvent(o.long.value, text, First(rest)) == (UnknownLong("--" + text), false);
    IndexOfAbsent(name, '=');
    assert name[..|name|] == name;
    assert LongEvent(o.long.value, name, First(rest)) == (UnknownLong("--" + name), false);
    hide LongEvent, IndexOf;
    RefusedElement(o, text, rest);
    if name != "" {
      RefusedElement(o, name, rest);
    }
  }

  lemma RefusedElement(o: Options, text: string, rest: seq<string>)
    requires o.long.Some? && text != ""
    requires LongEvent(o.long.value, text, First(rest)) == (UnknownLong("--" + text), false)
    ensures var e := "--" + text;
      Reference(o, [e] + rest) == Then(Parse([UnknownLong(e)], [e], []), Reference(o, rest))
  {
    hide LongEvent, Reference;
    var args := ["--" + text] + rest;
    assert args[1..] == rest && args[..1] == ["--" + text];
    LongElement(o, text, args);
  }

  lemma LongAlone(o: Options, name: string, i: nat, rest: seq<string>)
    requires o.long.Some? && '=' !in name && i < |o.long.value| && LookUp(o.long.value, name) == Found(i)
    requires name != ""
    ensures var e, l := "--" + name, o.long.value[i];
      Reference(o, [e] + rest) ==
      if l.hasArg != 1 then Then(Parse([Long(i, None, e)], [e], []), Reference(o, rest))
      else if rest == [] then Then(Parse([MissingArgument(l.val, e)], [e], []), Reference(o, []))
      else Then(Parse([Long(i, Some(rest[0]), rest[0])], [e, rest[0]], []), Reference(o, rest[1..]))
  {
    hide LookUp, LongEvent, Reference;
    var args := ["--" + name] + rest;
    LongWithoutValue(o.long.value, name, i, First(rest));
    LongElement(o, name, args);
    assert args[1..] == rest && args[..1] == ["--" + name];
    assert rest != [] ==> args[..2] == ["--" + name, rest[0]] && args[2..] == rest[1..];
  }
}
