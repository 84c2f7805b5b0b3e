/** Parsing a whole command line against an argument table: the option tables that the scanner
    gets, the tagged options, the untagged arguments and the final check. */
module ArgParse {
  import opened Argtable
  import opened Getopt
  import opened OptionSyntax
  import opened Strings
  import opened Wrappers

  // ------------------------------------------------------------- the option tables

  function HasArg(e: Entry): int {
    if e.hasOptValue then 2 else if e.hasValue then 1 else 0
  }

  /** The names in a text that separates them by commas. */
  function Names(longopts: string): seq<string>
    decreases |longopts|
  {
    if longopts == "" then []
    else
      var n := IndexOf(longopts, ',');
      [longopts[..n]] + if n < |longopts| then Names(longopts[n + 1..]) else []
  }

  function LongOf(names: seq<string>, e: Entry, t: nat): (r: seq<LongOption>)
    ensures |r| == |names| && forall i :: 0 <= i < |names| ==> r[i] == LongOption(names[i], HasArg(e), t)
  {
    seq(|names|, i requires 0 <= i < |names| => LongOption(names[i], HasArg(e), t))
  }

  function LongOptions(table: seq<Entry>): seq<LongOption> {
    if table == [] then []
    else
      var n := |table| - 1;
      LongOptions(table[..n]) + LongOf(Names(table[n].longopts), table[n], n)
  }

  function Colons(e: Entry): string {
    (if e.hasValue then ":" else "") + (if e.hasOptValue then ":" else "")
  }

  function Declared(c: char, e: Entry): string {
    [c] + Colons(e)
  }

  function ShortOf(chars: string, e: Entry): string {
    if chars == "" then "" else ShortOf(chars[..|chars| - 1], e) + Declared(chars[|chars| - 1], e)
  }

  /** Behind the leading ':'. */
  function ShortOptions(table: seq<Entry>): string {
    if table == [] then ":"
    else ShortOptions(table[..|table| - 1]) + ShortOf(table[|table| - 1].shortopts, table[|table| - 1])
  }

  method AllocLongOptions(table: seq<Entry>) returns (long: seq<LongOption>)
    ensures long == LongOptions(table)
  {
    hide Names, LongOptions;
    long := [];
    var tabindex := 0;
    NoLongOptions(table);
    while tabindex < |table|
      invariant 0 <= tabindex <= |table| && long == LongOptions(table[..tabindex])
    {
      var e, longopts := table[tabindex], table[tabindex].longopts;
      ghost var before := long;
      LongOptionsStep(table, tabindex);
      while longopts != ""
        invariant long + LongOf(Names(longopts), e, tabindex) == before + LongOf(Names(e.longopts), e, tabindex)
        decreases |longopts|
      {
        var name, rest := NextName(longopts);
        OneLongOption(before, LongOf(Names(e.longopts), e, tabindex), long, name, Names(rest), e, tabindex);
        long := long + [LongOption(name, HasArg(e), tabindex)];
        longopts := rest;
      }
      NoNames();
      assert long + [] == long;
      tabindex := tabindex + 1;
    }
    assert table[..tabindex] == table;
  }

  lemma NoNames()
    ensures Names("") == []
  {
  }

  lemma NoLongOptions(table: seq<Entry>)
    ensures LongOptions(table[..0]) == []
  {
  }

  lemma LongOptionsStep(table: seq<Entry>, t: nat)
    requires t < |table|
    ensures LongOptions(table[..t + 1]) == LongOptions(table[..t]) + LongOf(Names(table[t].longopts), table[t], t)
  {
    hide Names;
    assert table[..t + 1][..t] == table[..t];
  }

  lemma OneLongOption(before: seq<LongOption>, all: seq<LongOption>, long: seq<LongOption>, name: string,
                      names: seq<string>, e: Entry, t: nat)
    requires long + LongOf([name] + names, e, t) == before + all
    ensures long + [LongOption(name, HasArg(e), t)] + LongOf(names, e, t) == before + all
  {
    hide HasArg;
    assert LongOf([name] + names, e, t) == [LongOption(name, HasArg(e), t)] + LongOf(names, e, t);
  }

  /** Copies one name out of the list. */
  method NextName(longopts: string) returns (name: string, rest: string)
    requires longopts != ""
    ensures |rest| < |longopts| && Names(longopts) == [name] + Names(rest)
  {
    hide Names;
    var n := 0;
    name := "";
    while n < |longopts| && longopts[n] != ','
      invariant n <= |longopts| && name == longopts[..n]
      invariant forall j :: 0 <= j < n ==> longopts[j] != ','
    {
      name := name + [longopts[n]];
      n := n + 1;
    }
    FirstName(longopts, n);
    rest := if n < |longopts| then longopts[n + 1..] else "";
  }

  lemma FirstName(longopts: string, n: nat)
    requires longopts != "" && n <= |longopts| && (n < |longopts| ==> longopts[n] == ',')
    requires forall j :: 0 <= j < n ==> longopts[j] != ','
    ensures Names(longopts) == [longopts[..n]] + Names(if n < |longopts| then longopts[n + 1..] else "")
  {
    hide IndexOf;
    IndexOfIs(longopts, ',', n);
    assert [longopts[..n]] + [] == [longopts[..n]];
  }

  function JoinNames(names: seq<string>): string {
    if names == [] then ""
    else if |names| == 1 then names[0]
    else names[0] + "," + JoinNames(names[1..])
  }

  /** Names without commas, the last of them not empty, come out of the list as they were. */
  lemma {:induction false} NamesOfJoined(names: seq<string>)
    requires forall i :: 0 <= i < |names| ==> ',' !in names[i]
    requires names != [] ==> names[|names| - 1] != ""
    ensures Names(JoinNames(names)) == names
  {
    if |names| == 1 {
      IndexOfAbsent(names[0], ',');
      assert names[0][..|names[0]|] == names[0];
    } else if names != [] {
      var rest := JoinNames(names[1..]);
      NamesOfJoined(names[1..]);
      IndexOfAt(names[0], ',', rest);
      var s := names[0] + "," + rest;
      assert s[..|names[0]|] == names[0] && s[|names[0]| + 1..] == rest;
    }
  }

  method AllocShortOptions(table: seq<Entry>) returns (short: string)
    ensures short == ShortOptions(table)
  {
    short := ":";
    var tabindex := 0;
    while tabindex < |table|
      invariant 0 <= tabindex <= |table| && short == ShortOptions(table[..tabindex])
    {
      short := DeclareShort(short, table[tabindex]);
      assert table[..tabindex + 1][..tabindex] == table[..tabindex];
      tabindex := tabindex + 1;
    }
    assert table[..tabindex] == table;
  }

  method DeclareShort(before: string, e: Entry) returns (short: string)
    ensures short == before + ShortOf(e.shortopts, e)
  {
    short := before;
    var i := 0;
    while i < |e.shortopts|
      invariant 0 <= i <= |e.shortopts| && short == before + ShortOf(e.shortopts[..i], e)
    {
      hide Declared;
      assert e.shortopts[..i + 1][..i] == e.shortopts[..i];
      short := DeclareChar(short, e.shortopts[i], e);
      i := i + 1;
    }
    assert e.shortopts[..i] == e.shortopts;
  }

  method DeclareChar(before: string, c: char, e: Entry) returns (short: string)
    ensures short == before + Declared(c, e)
  {
    short := before + [c];
    if e.hasValue {
      short := short + ":";
    }
    if e.hasOptValue {
      short := short + ":";
    }
  }

  /** The first entry with the option character; the table size if there is none. */
  function ShortEntry(table: seq<Entry>, c: char): (t: nat)
    ensures t <= |table|
    ensures t < |table| ==> c in table[t].shortopts
    ensures forall i :: 0 <= i < t ==> c !in table[i].shortopts
  {
    if table == [] || c in table[0].shortopts then 0 else 1 + ShortEntry(table[1..], c)
  }

  method FindShortOption(table: seq<Entry>, c: char) returns (t: nat)
    ensures t == ShortEntry(table, c)
  {
    t := 0;
    while t < |table| && c !in table[t].shortopts
      invariant t <= |table| && forall i :: 0 <= i < t ==> c !in table[i].shortopts
    {
      t := t + 1;
    }
  }

  /** The long option at any place of the option array belongs to the entry that its value names. */
  lemma {:induction false} LongOptionsAgree(table: seq<Entry>, i: nat)
    requires i < |LongOptions(table)|
    ensures var l := LongOptions(table)[i];
      && 0 <= l.val < |table| && l.name in Names(table[l.val].longopts)
      && l.hasArg == (if table[l.val].hasOptValue then 2 else if table[l.val].hasValue then 1 else 0)
  {
    var n := |table| - 1;
    if i < |LongOptions(table[..n])| {
      LongOptionsAgree(table[..n], i);
    }
  }

  /** The number of names of the first n entries. */
  function NamesBefore(table: seq<Entry>, n: nat): nat
    requires n <= |table|
  {
    if n == 0 then 0 else NamesBefore(table, n - 1) + |Names(table[n - 1].longopts)|
  }

  lemma {:induction false} NamesBeforeMore(table: seq<Entry>, e: Entry, n: nat)
    requires n <= |table|
    ensures NamesBefore(table + [e], n) == NamesBefore(table, n)
  {
    if n > 0 {
      NamesBeforeMore(table, e, n - 1);
    }
  }

  lemma {:induction false} LongOptionsCount(table: seq<Entry>)
    ensures |LongOptions(table)| == NamesBefore(table, |table|)
  {
    hide Names;
    if table != [] {
      var init, e := table[..|table| - 1], table[|table| - 1];
      assert table == init + [e];
      LongOptionsCount(init);
      NamesBeforeMore(init, e, |init|);
    }
  }

  /** The option array lists every name of every entry, in order. */
  lemma {:induction false} LongOptionsListed(table: seq<Entry>, t: nat, j: nat)
    requires t < |table| && j < |Names(table[t].longopts)|
    ensures var i := NamesBefore(table, t) + j;
      && i < NamesBefore(table, |table|) == |LongOptions(table)|
      && LongOptions(table)[i].name == Names(table[t].longopts)[j] && LongOptions(table)[i].val == t
  {
    hide Names;
    var n := |table| - 1;
    var init, e := table[..n], table[n];
    assert table == init + [e];
    LongOptionsCount(table);
    LongOptionsCount(init);
    NamesBeforeMore(init, e, t);
    if t < n {
      assert init[t] == table[t];
      LongOptionsListed(init, t, j);
    }
  }

  // ---------------------------------------------- what the scanner sees of a character

  /** No entry declares a ':' as an option. */
  predicate NoColon(table: seq<Entry>) {
    forall t :: 0 <= t < |table| ==> ':' !in table[t].shortopts
  }

  /** What stands behind c: as many colons as the entry asks for, and no others. */
  predicate ColonsBehind(s: string, c: char, e: Entry) {
    var i := IndexOf(s, c);
    && i < |s|
    && (At(s, i + 1) == ':' <==> e.hasValue || e.hasOptValue)
    && (e.hasValue || e.hasOptValue ==> (At(s, i + 2) == ':' <==> e.hasValue && e.hasOptValue))
  }

  lemma {:induction false} ShortOfMembers(chars: string, e: Entry, c: char)
    requires c != ':'
    ensures c in ShortOf(chars, e) <==> c in chars
  {
    if chars != "" {
      ShortOfMembers(chars[..|chars| - 1], e, c);
      assert chars == chars[..|chars| - 1] + [chars[|chars| - 1]];
    }
  }

  /** The text does not start with a colon. */
  predicate Fresh(s: string) {
    s == "" || s[0] != ':'
  }

  lemma {:induction false} ShortOfFresh(chars: string, e: Entry)
    requires ':' !in chars
    ensures Fresh(ShortOf(chars, e)) && (chars == "" <==> ShortOf(chars, e) == "")
  {
    if chars != "" {
      var init := chars[..|chars| - 1];
      assert chars == init + [chars[|chars| - 1]];
      ShortOfFresh(init, e);
    }
  }

  /** The option string declares c as the entry asks. */
  predicate Known(s: string, c: char, e: Entry) {
    c in s && ColonsBehind(s, c, e) && IndexOf(s, c) + 1 + |Colons(e)| <= |s|
  }

  lemma DeclaredIsKnown(c: char, e: Entry)
    requires c != ':'
    ensures Known(Declared(c, e), c, e) && Fresh(Declared(c, e))
  {
    assert IndexOf(Declared(c, e), c) == 0;
  }

  /** More options behind it do not change what stands behind c. */
  lemma KnownAppend(s: string, c: char, e: Entry, more: string)
    requires Known(s, c, e) && Fresh(more)
    ensures Known(s + more, c, e)
  {
    IndexOfAppend(s, c, more);
  }

  lemma KnownBehind(s: string, t: string, c: char, e: Entry)
    requires c !in s && Known(t, c, e)
    ensures Known(s + t, c, e)
  {
    IndexOfAppend(s, c, t);
  }

  lemma {:induction false} ShortOfKnown(chars: string, e: Entry, c: char)
    requires ':' !in chars && c in chars
    ensures Known(ShortOf(chars, e), c, e)
  {
    hide Known, Declared;
    var init, last := chars[..|chars| - 1], chars[|chars| - 1];
    assert chars == init + [last];
    ShortOfMembers(init, e, c);
    DeclaredIsKnown(last, e);
    if c in init {
      ShortOfKnown(init, e, c);
      KnownAppend(ShortOf(init, e), c, e, Declared(last, e));
    } else {
      KnownBehind(ShortOf(init, e), Declared(last, e), c, e);
    }
  }

  /** The scanner knows an option character if and only if some entry declares it, and it looks for
      a value exactly if the first such entry takes one. */
  lemma {:induction false} ShortOptionsAgree(table: seq<Entry>, c: char)
    requires c != ':' && NoColon(table)
    ensures var s, t := ShortOptions(table), ShortEntry(table, c);
      && (c in s <==> t < |table|)
      && (t < |table| ==> Known(s, c, table[t]))
  {
    hide Known, ShortOf, ShortEntry;
    if table == [] {
    } else {
      var n := |table| - 1;
      var init, e := table[..n], table[n];
      assert table == init + [e];
      ShortOptionsAgree(init, c);
      ShortEntryAppend(init, e, c);
      var s, more := ShortOptions(init), ShortOf(e.shortopts, e);
      ShortOfMembers(e.shortopts, e, c);
      ShortOfFresh(e.shortopts, e);
      if c in s {
        KnownAppend(s, c, init[ShortEntry(init, c)], more);
      } else if c in e.shortopts {
        ShortOfKnown(e.shortopts, e, c);
        KnownBehind(s, more, c, e);
      }
    }
  }

  // ------------------------------------------- tables that declare ':' as an option

  /** The declaration of c by this entry stands at the first occurrence of c. */
  predicate DeclaredAt(s: string, c: char, e: Entry) {
    var i, d := IndexOf(s, c), Declared(c, e);
    i + |d| <= |s| && s[i..i + |d|] == d
  }

  lemma DeclaredAppend(s: string, c: char, e: Entry, more: string)
    requires DeclaredAt(s, c, e)
    ensures DeclaredAt(s + more, c, e)
  {
    var i, d := IndexOf(s, c), Declared(c, e);
    assert s[i] == d[0] == c;
    IndexOfAppend(s, c, more);
    assert (s + more)[i..i + |d|] == s[i..i + |d|];
  }

  lemma DeclaredBehind(s: string, t: string, c: char, e: Entry)
    requires c !in s && DeclaredAt(t, c, e)
    ensures DeclaredAt(s + t, c, e)
  {
    var i, d := IndexOf(t, c), Declared(c, e);
    IndexOfAppend(s, c, t);
    assert (s + t)[|s| + i..|s| + i + |d|] == t[i..i + |d|];
  }

  lemma {:induction false} ShortOfDeclared(chars: string, e: Entry, c: char)
    requires c != ':' && c in chars
    ensures DeclaredAt(ShortOf(chars, e), c, e)
  {
    hide Declared;
    var init, last := chars[..|chars| - 1], chars[|chars| - 1];
    assert chars == init + [last];
    ShortOfMembers(init, e, c);
    if c in init {
      ShortOfDeclared(init, e, c);
      DeclaredAppend(ShortOf(init, e), c, e, Declared(last, e));
    } else {
      DeclaredItself(c, e);
      DeclaredBehind(ShortOf(init, e), Declared(last, e), c, e);
    }
  }

  lemma DeclaredItself(c: char, e: Entry)
    ensures DeclaredAt(Declared(c, e), c, e)
  {
    assert IndexOf(Declared(c, e), c) == 0;
  }

  /** Whatever the table declares, the scanner knows a character if and only if some entry declares it;
      it reads the character as the first such entry asks if and only if the declaration has two colons
      or no further colon follows it. */
  lemma ShortOptionsAgreeIff(table: seq<Entry>, c: char)
    requires c != ':'
    ensures var s, t := ShortOptions(table), ShortEntry(table, c);
      && (c in s <==> t < |table|)
      && (t < |table| ==>
            (ColonsBehind(s, c, table[t])
             <==> |Colons(table[t])| == 2 || At(s, IndexOf(s, c) + 1 + |Colons(table[t])|) != ':'))
  {
    hide *;
    FirstDeclaration(table, c);
    if ShortEntry(table, c) < |table| {
      DeclarationRead(ShortOptions(table), c, table[ShortEntry(table, c)]);
    }
  }

  lemma DeclarationRead(s: string, c: char, e: Entry)
    requires DeclaredAt(s, c, e)
    ensures ColonsBehind(s, c, e) <==> |Colons(e)| == 2 || At(s, IndexOf(s, c) + 1 + |Colons(e)|) != ':'
  {
    hide IndexOf;
    var i, d := IndexOf(s, c), Declared(c, e);
    forall j | 0 <= j < |d| ensures s[i + j] == d[j] {
      assert s[i..i + |d|][j] == s[i + j];
    }
    if e.hasValue && e.hasOptValue {
      assert d[1] == ':' && d[2] == ':';
    } else if e.hasValue || e.hasOptValue {
      assert d[1] == ':' && |d| == 2;
    } else {
      assert |d| == 1;
    }
  }

  lemma {:induction false} FirstDeclaration(table: seq<Entry>, c: char)
    requires c != ':'
    ensures c in ShortOptions(table) <==> ShortEntry(table, c) < |table|
    ensures ShortEntry(table, c) < |table| ==> DeclaredAt(ShortOptions(table), c, table[ShortEntry(table, c)])
  {
    hide DeclaredAt, ShortOf, ShortEntry;
    if table == [] {
      assert ShortEntry([], c) <= 0;
    } else {
      var n := |table| - 1;
      var init, e := table[..n], table[n];
      assert table == init + [e];
      FirstDeclaration(init, c);
      ShortEntryAppend(init, e, c);
      var s, more := ShortOptions(init), ShortOf(e.shortopts, e);
      ShortOfMembers(e.shortopts, e, c);
      if c in s {
        DeclaredAppend(s, c, init[ShortEntry(init, c)], more);
      } else if c in e.shortopts {
        ShortOfDeclared(e.shortopts, e, c);
        DeclaredBehind(s, more, c, e);
      }
    }
  }

  lemma {:induction false} ShortEntryAppend(init: seq<Entry>, e: Entry, c: char)
    ensures ShortEntry(init + [e], c) ==
      if ShortEntry(init, c) < |init| then ShortEntry(init, c) else |init| + if c in e.shortopts then 0 else 1
  {
    if init != [] && c !in init[0].shortopts {
      assert (init + [e])[1..] == init[1..] + [e];
      ShortEntryAppend(init[1..], e, c);
    }
  }

  /** The option string asks the scanner to read "-W name" as a long option. */
  predicate AsksForW(short: string) {
    'W' in short && At(short, IndexOf(short, 'W') + 1) == ';'
  }

  lemma {:induction false} DeclaredOnly(table: seq<Entry>, c: char)
    requires c != ':' && c in ShortOptions(table)
    ensures exists t :: 0 <= t < |table| && c in table[t].shortopts
  {
    if table != [] {
      var init, e := table[..|table| - 1], table[|table| - 1];
      ShortOfMembers(e.shortopts, e, c);
      if c in ShortOptions(init) {
        DeclaredOnly(init, c);
        var t :| 0 <= t < |init| && c in init[t].shortopts;
        assert table[t] == init[t];
      } else {
        assert c in table[|table| - 1].shortopts;
      }
    }
  }

  /** An argument table asks for that only if entries declare both 'W' and ';'. */
  lemma WhoAsksForW(table: seq<Entry>)
    requires AsksForW(ShortOptions(table))
    ensures exists t :: 0 <= t < |table| && 'W' in table[t].shortopts
    ensures exists t :: 0 <= t < |table| && ';' in table[t].shortopts
  {
    hide ShortOptions, IndexOf;
    DeclaredOnly(table, 'W');
    BehindIsMember(ShortOptions(table));
    DeclaredOnly(table, ';');
  }

  lemma BehindIsMember(short: string)
    requires AsksForW(short)
    ensures ';' in short
  {
    assert short[IndexOf(short, 'W') + 1] == ';';
  }

  // ------------------------------------------------------------- the tagged options

  ghost predicate Sized(table: seq<Entry>, now: Tally) {
    |now.counts| == |now.values| == |table|
  }

  /** The scan function of entry t gets a value. */
  ghost function Scanned(table: seq<Entry>, now: Tally, t: nat, arg: Option<string>): (r: Tally)
    requires Sized(table, now) && t < |table|
    ensures Sized(table, r)
  {
    if !table[t].scans then now
    else
      var code := ScanCode(table[t], now.counts[t], arg);
      if code != 0 then now.(all := now.all + [Error(code, Of(t), arg)])
      else
        now.(counts := now.counts[t := now.counts[t] + 1],
             values := now.values[t := now.values[t] + if arg.Some? then [arg.value] else []])
  }

  ghost function Registered(now: Tally, code: int, argval: Option<string>): Tally {
    now.(all := now.all + [Error(code, EndOfTable, argval)])
  }

  /** The error that the case '?' registers for a bad option. */
  ghost function Refused(now: Tally, optopt: int, text: string): Tally {
    if optopt == 0 then Registered(now, ARG_ELONGOPT, Some(text)) else Registered(now, optopt, None)
  }

  /** What one event of the scanner does to the table, when `optopt` is left and `text` stands before
      the scan position.  An extra value for the first entry of the table reads as an unknown long
      option, since its index is zero, and an option '?' always reads as a bad one. */
  ghost function Handled(table: seq<Entry>, now: Tally, event: Event, optopt: int, text: string): (r: Tally)
    requires Sized(table, now)
    ensures Sized(table, r)
  {
    match event
    case Long(i, arg, text') =>
      if i >= |LongOptions(table)| then now
      else
        LongOptionsAgree(table, i);
        var t := LongOptions(table)[i].val;
        var missing := arg == Some("") && table[t].hasValue;
        Scanned(table, if missing then Registered(now, ARG_EMISSARG, Some(text')) else now, t, arg)
    case Short(c, arg) =>
      var t := ShortEntry(table, c);
      if c == '?' then Refused(now, optopt, text)
      else if t == |table| then Registered(now, c as int, None)
      else Scanned(table, now, t, arg)
    case UnknownShort(c) => Refused(now, c as int, text)
    case UnknownLong(text') => Refused(now, 0, text')
    case ExtraArgument(optopt', text') => Refused(now, optopt', text')
    case MissingArgument(_, text') => Registered(now, ARG_EMISSARG, Some(text'))
  }

  /** The value of `optopt` after the events. */
  function OptoptAfter(optopt: int, events: seq<Event>): int {
    if events == [] then optopt
    else Optopt(OptoptAfter(optopt, events[..|events| - 1]), events[|events| - 1])
  }

  /** All events in turn; texts[i] stands before the scan position after event i. */
  ghost function HandledAll(table: seq<Entry>, now: Tally, optopt: int, events: seq<Event>,
                            texts: seq<string>): (r: Tally)
    requires Sized(table, now) && |texts| == |events|
    ensures Sized(table, r)
  {
    if events == [] then now
    else
      var n := |events| - 1;
      Handled(table, HandledAll(table, now, optopt, events[..n], texts[..n]), events[n], OptoptAfter(optopt, events),
              texts[n])
  }

  method ScanValue(table: Table, t: nat, arg: Option<string>)
    requires table.Valid() && t < |table.table|
    modifies table, table.end, table.end.errors
    ensures table.Valid() && table.Now() == Scanned(table.table, old(table.Now()), t, arg)
  {
    var e := table.table[t];
    if e.scans {
      var errorcode := ScanCode(e, table.counts[t], arg);
      if errorcode != 0 {
        table.end.RegisterError(Error(errorcode, Of(t), arg));
      } else {
        table.counts := table.counts[t := table.counts[t] + 1];
        table.values := table.values[t := table.values[t] + if arg.Some? then [arg.value] else []];
      }
    }
  }

  /** The reaction to one return of the scanner: 0 for a long option, '?', ':' or the option
      character. */
  method HandleEvent(table: Table, long: seq<LongOption>, event: Event, optopt: int, text: string)
    requires table.Valid() && long == LongOptions(table.table)
    requires event.UnknownShort? || event.UnknownLong? || event.ExtraArgument? ==> optopt == Optopt(optopt, event)
    requires event.Long? || event.UnknownLong? || event.ExtraArgument? || event.MissingArgument? ==> text == event.text
    modifies table, table.end, table.end.errors
    ensures table.Valid() && table.Now() == Handled(table.table, old(table.Now()), event, optopt, text)
  {
    match event
    case Long(i, arg, _) =>
      if i < |long| {
        LongOptionsAgree(table.table, i);
        var t := long[i].val;
        if arg == Some("") && table.table[t].hasValue {
          table.end.RegisterError(Error(ARG_EMISSARG, EndOfTable, Some(text)));
        }
        ScanValue(table, t, arg);
      }
    case Short(c, arg) =>
      if c == '?' {
        RefuseOption(table, optopt, text);
      } else {
        var t := FindShortOption(table.table, c);
        if t == |table.table| {
          table.end.RegisterError(Error(c as int, EndOfTable, None));
        } else {
          ScanValue(table, t, arg);
        }
      }
    case MissingArgument(_, _) =>
      table.end.RegisterError(Error(ARG_EMISSARG, EndOfTable, Some(text)));
    case _ =>
      RefuseOption(table, optopt, text);
  }

  method RefuseOption(table: Table, optopt: int, text: string)
    requires table.Valid()
    modifies table.end, table.end.errors
    ensures table.Valid() && table.Now() == Refused(old(table.Now()), optopt, text)
  {
    if optopt == 0 {
      table.end.RegisterError(Error(ARG_ELONGOPT, EndOfTable, Some(text)));
    } else {
      table.end.RegisterError(Error(optopt, EndOfTable, None));
    }
  }

  /** Scans all options of the command line and hands each to its entry. */
  method ParseTagged(table: Table, scanner: Scanner) returns (ghost texts: seq<string>)
    requires table.Valid() && scanner.optind == 0 && scanner.Valid()
    requires scanner.options.long == Some(LongOptions(table.table))
    modifies table, table.end, table.end.errors, scanner, scanner.argv
    ensures table.Valid()
    ensures var p := Reference(scanner.options, scanner.original[1..]);
      && |texts| == |p.events|
      && table.Now() == HandledAll(table.table, old(table.Now()), old(scanner.optopt), p.events, texts)
      && scanner.optind == 1 + |p.options|
      && scanner.argv[..] == scanner.original[..1] + p.options + p.nonoptions
  {
    hide Reference, Handled, FinalOk, Optopt;
    ghost var all := Reference(scanner.options, scanner.original[1..]);
    var copt := Some(UnknownLong(""));
    texts := [];
    StartOfScan(scanner.options, scanner.original);
    while copt.Some?
      invariant scanner.argv.Length == |scanner.original| && table.Valid()
      invariant copt.Some? ==> scanner.Valid() && |scanner.events| <= |all.events|
      invariant copt.None? ==> scanner.Finished()
      invariant |texts| == |scanner.events| && scanner.optopt == OptoptAfter(old(scanner.optopt), scanner.events)
      invariant table.Now() == HandledAll(table.table, old(table.Now()), old(scanner.optopt), scanner.events, texts)
      decreases copt.Some?, |all.events| - |scanner.events|
    {
      copt := ParseOne(table, scanner);
      if copt.Some? {
        texts := texts + [scanner.argv[scanner.optind - 1]];
      }
    }
    scanner.Divided();
  }

  method ParseOne(table: Table, scanner: Scanner) returns (copt: Option<Event>)
    requires table.Valid() && scanner.Valid()
    requires scanner.options.long == Some(LongOptions(table.table))
    modifies table, table.end, table.end.errors, scanner, scanner.argv
    ensures table.Valid()
    ensures copt.None? ==>
      && scanner.Finished() && scanner.events == old(scanner.events) && scanner.optopt == old(scanner.optopt)
      && table.Now() == old(table.Now())
    ensures copt.Some? ==>
      && scanner.Valid() && scanner.events == old(scanner.events) + [copt.value]
        && 0 < scanner.optind <= scanner.argv.Length
      && |scanner.events| <= |Reference(scanner.options, scanner.original[1..]).events|
      && scanner.optopt == Optopt(old(scanner.optopt), copt.value)
      && table.Now() == Handled(table.table, old(table.Now()), copt.value, scanner.optopt,
                                scanner.argv[scanner.optind - 1])
  {
    hide Reference, Handled, ScanOk, FinalOk;
    copt := scanner.Next();
    if copt.Some? {
      EventsSoFar(scanner.options, scanner.original, scanner.argv[..], scanner.firstNonopt, scanner.lastNonopt,
                  scanner.optind, scanner.nextchar, scanner.events);
      HandleEvent(table, scanner.options.long.value, copt.value, scanner.optopt, scanner.argv[scanner.optind - 1]);
    }
  }

  // ---------------------------------------------------------- what the tagged part keeps

  /** The errors of one event: a bad option under its character, under the value of the long option or
      as an unknown long option; a missing argument; and what the scan function of the entry says. */
  lemma EventErrors(table: seq<Entry>, now: Tally, event: Event, optopt: int, text: string)
    requires Sized(table, now) && (event.Long? ==> event.index < |LongOptions(table)|)
    ensures var all := Handled(table, now, event, optopt, text).all;
      && (event.Long? ==>
            var t, missing := LongOptions(table)[event.index].val, Error(ARG_EMISSARG, EndOfTable, Some(event.text));
            && 0 <= t < |table|
            && all == now.all + (if event.arg == Some("") && table[t].hasValue then [missing] else [])
                      + ScanErrors(table[t], now.counts[t], t, event.arg))
      && (event.Short? && event.c != '?' ==>
            var t := ShortEntry(table, event.c);
            all == now.all + if t < |table| then ScanErrors(table[t], now.counts[t], t, event.arg)
                             else [Error(event.c as int, EndOfTable, None)])
      && (event.Short? && event.c == '?' ==> all == now.all + [BadOption(optopt, text)])
      && (event.UnknownShort? ==> all == now.all + [BadOption(event.c as int, text)])
      && (event.UnknownLong? ==> all == now.all + [BadOption(0, event.text)])
      && (event.ExtraArgument? ==> all == now.all + [BadOption(event.optopt, event.text)])
      && (event.MissingArgument? ==> all == now.all + [Error(ARG_EMISSARG, EndOfTable, Some(event.text))])
  {
    assert forall all: seq<Error> :: all + [] == all;
    if event.Long? {
      LongOptionsAgree(table, event.index);
    }
  }

  function BadOption(optopt: int, text: string): Error {
    if optopt == 0 then Error(ARG_ELONGOPT, EndOfTable, Some(text)) else Error(optopt, EndOfTable, None)
  }

  /** What a scan function registers: nothing if it takes the value, else why it refuses it. */
  function ScanErrors(e: Entry, count: nat, t: nat, arg: Option<string>): seq<Error> {
    if !e.scans then []
    else if count == e.maxcount then [Error(EMAXCOUNT, Of(t), arg)]
    else if !e.valid(arg) then [Error(EBADVALUE, Of(t), arg)]
    else []
  }

  lemma ScannedWithin(table: seq<Entry>, now: Tally, t: nat, arg: Option<string>)
    requires Sized(table, now) && t < |table| && WithinMaximum(table, now.counts)
    ensures WithinMaximum(table, Scanned(table, now, t, arg).counts)
  {
  }

  lemma HandledWithin(table: seq<Entry>, now: Tally, event: Event, optopt: int, text: string)
    requires Sized(table, now) && WithinMaximum(table, now.counts)
    ensures WithinMaximum(table, Handled(table, now, event, optopt, text).counts)
  {
    hide WithinMaximum, Scanned;
    match event
    case Long(i, arg, text') =>
      if i < |LongOptions(table)| {
        LongOptionsAgree(table, i);
        var t := LongOptions(table)[i].val;
        ScannedWithin(table, now, t, arg);
        ScannedWithin(table, Registered(now, ARG_EMISSARG, Some(text')), t, arg);
      }
    case Short(c, arg) =>
      if ShortEntry(table, c) < |table| {
        ScannedWithin(table, now, ShortEntry(table, c), arg);
      }
    case _ =>
  }

  /** No option is ever counted beyond its maximum. */
  lemma {:induction false} HandledWithinMaximum(table: seq<Entry>, now: Tally, optopt: int, events: seq<Event>,
                                                texts: seq<string>)
    requires Sized(table, now) && WithinMaximum(table, now.counts) && |texts| == |events|
    ensures WithinMaximum(table, HandledAll(table, now, optopt, events, texts).counts)
  {
    if events != [] {
      hide WithinMaximum, Handled;
      var n := |events| - 1;
      HandledWithinMaximum(table, now, optopt, events[..n], texts[..n]);
      HandledWithin(table, HandledAll(table, now, optopt, events[..n], texts[..n]), events[n],
                    OptoptAfter(optopt, events), texts[n]);
    }
  }

  /** The event was an option of the table whose value its entry takes. */
  predicate Taken(table: seq<Entry>, event: Event) {
    match event
    case Long(i, arg, _) =>
      && i < |LongOptions(table)|
      && var t := LongOptions(table)[i].val;
      && 0 <= t < |table| && !(arg == Some("") && table[t].hasValue)
      && (table[t].scans ==> table[t].valid(arg))
    case Short(c, arg) =>
      var t := ShortEntry(table, c);
      t < |table| && (table[t].scans ==> table[t].valid(arg))
    case _ => false
  }

  /** Long options are reported by their place in the option array. */
  predicate InRange(o: Options, events: seq<Event>) {
    forall i :: 0 <= i < |events| && events[i].Long? ==> o.long.Some? && events[i].index < |o.long.value|
  }

  lemma {:induction false} ClusterInRange(o: Options, e: string, rest: string, following: seq<string>)
    ensures InRange(o, Cluster(o, e, rest, following).0)
    decreases |rest|
  {
    if rest != "" {
      var (event, rest', took) := ShortOption(o, e, rest, First(following));
      if rest' != "" {
        ClusterInRange(o, e, rest', following);
      }
    }
  }

  lemma {:induction false} ReferenceInRange(o: Options, args: seq<string>)
    ensures InRange(o, Reference(o, args).events)
    decreases |args|
  {
    if args != [] && args[0] != "--" {
      if IsNonOption(args[0]) {
        if !o.posixlyCorrect {
          ReferenceInRange(o, args[1..]);
        }
      } else {
        if !IsLongElement(o, args[0]) {
          ClusterInRange(o, args[0], args[0][1..], args[1..]);
        }
        ReferenceInRange(o, args[1 + Element(o, args[0], args[1..]).1..]);
      }
    }
  }

  /** The event is an option of entry t that calls its scan function. */
  predicate ScansEntry(table: seq<Entry>, event: Event, t: nat) {
    && t < |table| && table[t].scans
    && match event
       case Long(i, _, _) => i < |LongOptions(table)| && LongOptions(table)[i].val == t
       case Short(c, _) => ShortEntry(table, c) == t
       case _ => false
  }

  /** How often the scan function of entry t is called. */
  function Occurrences(table: seq<Entry>, events: seq<Event>, t: nat): nat {
    if events == [] then 0
    else Occurrences(table, events[..|events| - 1], t) + if ScansEntry(table, events[|events| - 1], t) then 1 else 0
  }

  /** A valid option '?', which the scanner returns like a bad one. */
  predicate ReadsAsBad(event: Event) {
    event.Short? && event.c == '?'
  }

  /** One event registers no error if and only if it does not read as a bad option, its value is taken
      and its entry has room for it; it is counted then. */
  lemma HandledIff(table: seq<Entry>, now: Tally, event: Event, optopt: int, text: string)
    requires Sized(table, now) && (event.Long? ==> event.index < |LongOptions(table)|)
    requires WithinMaximum(table, now.counts)
    ensures now.all <= Handled(table, now, event, optopt, text).all
    ensures Handled(table, now, event, optopt, text).all == now.all <==>
      && Taken(table, event) && !ReadsAsBad(event)
      && forall t: nat :: ScansEntry(table, event, t) ==> now.counts[t] < table[t].maxcount
    ensures Handled(table, now, event, optopt, text).all == now.all ==> forall t :: 0 <= t < |table| ==>
      Handled(table, now, event, optopt, text).counts[t] == now.counts[t] + if ScansEntry(table, event, t) then 1 else 0
  {
    if event.Long? {
      LongOptionsAgree(table, event.index);
      var t := LongOptions(table)[event.index].val;
      assert table[t].scans ==> ScansEntry(table, event, t);
    }
    if event.Short? && ShortEntry(table, event.c) < |table| {
      assert table[ShortEntry(table, event.c)].scans ==> ScansEntry(table, event, ShortEntry(table, event.c));
    }
  }

  /** Every option is one of the table with a value that its entry takes, and none comes too often. */
  ghost predicate OptionsFit(table: seq<Entry>, counts: seq<nat>, events: seq<Event>)
    requires |counts| == |table|
  {
    && (forall e :: e in events ==> Taken(table, e))
    && (forall t :: 0 <= t < |table| ==> counts[t] + Occurrences(table, events, t) <= table[t].maxcount)
  }

  /** The tagged part registers no error if and only if the options fit and none of them is '?', and
      then counts them. */
  lemma {:induction false} NoErrorIffFit(table: seq<Entry>, now: Tally, optopt: int, events: seq<Event>,
                                         texts: seq<string>)
    requires Sized(table, now) && WithinMaximum(table, now.counts) && |texts| == |events|
    requires forall i :: 0 <= i < |events| && events[i].Long? ==> events[i].index < |LongOptions(table)|
    ensures now.all <= HandledAll(table, now, optopt, events, texts).all
    ensures HandledAll(table, now, optopt, events, texts).all == now.all <==>
      OptionsFit(table, now.counts, events) && forall e :: e in events ==> !ReadsAsBad(e)
    ensures HandledAll(table, now, optopt, events, texts).all == now.all ==> forall t :: 0 <= t < |table| ==>
      HandledAll(table, now, optopt, events, texts).counts[t] == now.counts[t] + Occurrences(table, events, t)
  {
    if events != [] {
      hide Handled, Taken, ScansEntry, ReadsAsBad;
      var n := |events| - 1;
      var init, before := events[..n], HandledAll(table, now, optopt, events[..n], texts[..n]);
      NoErrorIffFit(table, now, optopt, init, texts[..n]);
      HandledWithinMaximum(table, now, optopt, init, texts[..n]);
      HandledIff(table, before, events[n], OptoptAfter(optopt, events), texts[n]);
      assert events == init + [events[n]];
      FitStep(table, now.counts, before.counts, init, events[n]);
      assert forall e :: e in events <==> e in init || e == events[n];
    }
  }

  lemma OccurrencesAppend(table: seq<Entry>, init: seq<Event>, event: Event, t: nat)
    ensures Occurrences(table, init + [event], t)
         == Occurrences(table, init, t) + if ScansEntry(table, event, t) then 1 else 0
  {
    assert (init + [event])[..|init|] == init;
  }

  lemma FitStep(table: seq<Entry>, counts: seq<nat>, before: seq<nat>, init: seq<Event>, event: Event)
    requires |counts| == |before| == |table|
    ensures OptionsFit(table, counts, init + [event]) ==> OptionsFit(table, counts, init)
    ensures OptionsFit(table, counts, init)
            && (forall t :: 0 <= t < |table| ==> before[t] == counts[t] + Occurrences(table, init, t)) ==>
      (OptionsFit(table, counts, init + [event])
       <==> Taken(table, event) && forall t: nat :: ScansEntry(table, event, t) ==> before[t] < table[t].maxcount)
  {
    forall t: nat
      ensures Occurrences(table, init + [event], t)
           == Occurrences(table, init, t) + if ScansEntry(table, event, t) then 1 else 0
    {
      OccurrencesAppend(table, init, event, t);
    }
    EntriesOnly(table, event);
    hide Taken, ScansEntry, Occurrences;
    assert forall e :: e in init + [event] <==> e in init || e == event;
  }

  lemma EntriesOnly(table: seq<Entry>, event: Event)
    ensures forall t: nat :: ScansEntry(table, event, t) ==> t < |table|
  {
  }

  // ----------------------------------------------------------- the values that are kept

  /** The events that call the scan function of entry t, in order. */
  function ScansOf(table: seq<Entry>, events: seq<Event>, t: nat): (r: seq<Event>)
    ensures forall e :: e in r ==> ScansEntry(table, e, t)
  {
    if events == [] then []
    else
      var e := events[|events| - 1];
      ScansOf(table, events[..|events| - 1], t) + if ScansEntry(table, e, t) then [e] else []
  }

  /** The arguments that come with some events. */
  function Arguments(events: seq<Event>): seq<string> {
    if events == [] then []
    else
      var e := events[|events| - 1];
      Arguments(events[..|events| - 1])
      + if (e.Long? || e.Short?) && e.arg.Some? then [e.arg.value] else []
  }

  /** The events whose values an entry keeps that has counted some already: those that its scan function
      takes, while there is room. */
  function Kept(table: seq<Entry>, count: nat, events: seq<Event>, t: nat): seq<Event> {
    if events == [] then []
    else
      var before, e := Kept(table, count, events[..|events| - 1], t), events[|events| - 1];
      before + if ScansEntry(table, e, t) && !ReadsAsBad(e) && table[t].valid(e.arg)
                  && count + |before| < table[t].maxcount then [e] else []
  }

  lemma HandledKeeps(table: seq<Entry>, now: Tally, event: Event, optopt: int, text: string, t: nat)
    requires Sized(table, now) && (event.Long? ==> event.index < |LongOptions(table)|)
    requires WithinMaximum(table, now.counts) && t < |table|
    ensures var kept := ScansEntry(table, event, t) && !ReadsAsBad(event) && table[t].valid(event.arg)
                        && now.counts[t] < table[t].maxcount;
      var r := Handled(table, now, event, optopt, text);
      && r.counts[t] == now.counts[t] + (if kept then 1 else 0)
      && r.values[t] == now.values[t] + if kept && event.arg.Some? then [event.arg.value] else []
  {
    hide LongOptions, ShortEntry;
    assert now.values[t] + [] == now.values[t];
    if event.Long? {
      LongOptionsAgree(table, event.index);
    }
  }

  /** Every entry counts the events that it keeps, and stores their arguments in order. */
  lemma {:induction false} KeptValues(table: seq<Entry>, now: Tally, optopt: int, events: seq<Event>,
                                      texts: seq<string>, t: nat)
    requires Sized(table, now) && WithinMaximum(table, now.counts) && |texts| == |events| && t < |table|
    requires forall i :: 0 <= i < |events| && events[i].Long? ==> events[i].index < |LongOptions(table)|
    ensures var r, kept := HandledAll(table, now, optopt, events, texts), Kept(table, now.counts[t], events, t);
      r.counts[t] == now.counts[t] + |kept| && r.values[t] == now.values[t] + Arguments(kept)
  {
    if events == [] {
      assert now.values[t] + [] == now.values[t];
    } else {
      hide Handled, ScansEntry, ReadsAsBad, WithinMaximum, LongOptions;
      var n := |events| - 1;
      var r := HandledAll(table, now, optopt, events[..n], texts[..n]);
      var kept := Kept(table, now.counts[t], events[..n], t);
      KeptValues(table, now, optopt, events[..n], texts[..n], t);
      HandledWithinMaximum(table, now, optopt, events[..n], texts[..n]);
      HandledKeeps(table, r, events[n], OptoptAfter(optopt, events), texts[n], t);
      assert (kept + [events[n]])[..|kept|] == kept;
      assert kept + [] == kept;
      if events[n].Long? || events[n].Short? {
        var more := if events[n].arg.Some? then [events[n].arg.value] else [];
        assert now.values[t] + Arguments(kept) + more == now.values[t] + (Arguments(kept) + more);
        assert now.values[t] + Arguments(kept) + [] == now.values[t] + Arguments(kept);
      }
    }
  }

  /** Everything is kept when every option is taken and none comes too often. */
  lemma {:induction false} AllKept(table: seq<Entry>, count: nat, events: seq<Event>, t: nat)
    requires t < |table| && count + Occurrences(table, events, t) <= table[t].maxcount
    requires forall e :: e in events ==> Taken(table, e) && !ReadsAsBad(e)
    ensures Kept(table, count, events, t) == ScansOf(table, events, t)
    ensures |ScansOf(table, events, t)| == Occurrences(table, events, t)
  {
    if events != [] {
      hide Taken, ScansEntry, ReadsAsBad;
      var n := |events| - 1;
      var init, e := events[..n], events[n];
      assert events == init + [e];
      OccurrencesAppend(table, init, e, t);
      AllKept(table, count, init, t);
      assert e in events;
      if ScansEntry(table, e, t) {
        TakenIsValid(table, e, t);
      }
    }
  }

  lemma TakenIsValid(table: seq<Entry>, event: Event, t: nat)
    requires Taken(table, event) && ScansEntry(table, event, t)
    ensures (event.Long? || event.Short?) && table[t].valid(event.arg)
  {
  }

  // -------------------------------------------------------------- the whole parse

  function OptionsFor(table: seq<Entry>, posixlyCorrect: bool): Options {
    Options(ShortOptions(table), Some(LongOptions(table)), posixlyCorrect)
  }

  /** The table after a parse that started from `start`: the options are handled first, then the
      other arguments are matched, and the check runs exactly when no error was registered. */
  ghost predicate ParsedAs(table: seq<Entry>, start: Tally, optopt: int, p: Parse, texts: seq<string>, now: Tally)
    requires Sized(table, start) && |texts| == |p.events|
  {
    var tagged := HandledAll(table, start, optopt, p.events, texts);
    var r := Match(table, tagged.counts, 0, p.nonoptions);
    var all := tagged.all + ErrorsOf(r);
    && Sized(table, now)
    && (forall t :: 0 <= t < |table| ==> now.counts[t] == tagged.counts[t] + CountOf(r, t))
    && (forall t :: 0 <= t < |table| ==> now.values[t] == tagged.values[t] + ValuesOf(r, p.nonoptions, t))
    && now.all == all + if all == [] then CheckErrors(table, now.counts) else []
  }

  function OptionCounts(table: seq<Entry>, events: seq<Event>): (r: seq<nat>)
    ensures |r| == |table| && forall t :: 0 <= t < |table| ==> r[t] == Occurrences(table, events, t)
  {
    seq(|table|, t requires 0 <= t < |table| => Occurrences(table, events, t))
  }

  /** The command line fits the table: its options do, every other argument is accepted, and no
      checked entry has too few values. */
  ghost predicate Fits(table: seq<Entry>, p: Parse) {
    var options := OptionCounts(table, p.events);
    var r := Match(table, options, 0, p.nonoptions);
    && OptionsFit(table, Start(table).counts, p.events)
    && (forall i :: 0 <= i < |r| ==> r[i].Accepted?)
    && (forall t :: 0 <= t < |table| && table[t].checks ==> table[t].mincount <= options[t] + CountOf(r, t))
  }

  lemma {:induction false} NoErrorsIff(outcomes: seq<Outcome>)
    ensures ErrorsOf(outcomes) == [] <==> forall i :: 0 <= i < |outcomes| ==> outcomes[i].Accepted?
  {
    if outcomes != [] {
      NoErrorsIff(outcomes[1..]);
      assert outcomes == [outcomes[0]] + outcomes[1..];
    }
  }

  lemma {:induction false} NothingToCheckIff(table: seq<Entry>, counts: seq<nat>)
    requires |counts| == |table|
    ensures CheckErrors(table, counts) == [] <==>
      forall t :: 0 <= t < |table| && table[t].checks ==> table[t].mincount <= counts[t]
    decreases |table|
  {
    if table != [] {
      NothingToCheckIff(table[..|table| - 1], counts[..|table| - 1]);
    }
  }

  /** A parse registers no error if and only if the command line fits the table and gives no option
      '?'. */
  lemma NoErrorIffFits(table: seq<Entry>, optopt: int, p: Parse, texts: seq<string>, now: Tally)
    requires |texts| == |p.events| && ParsedAs(table, Start(table), optopt, p, texts, now)
    requires forall i :: 0 <= i < |p.events| && p.events[i].Long? ==> p.events[i].index < |LongOptions(table)|
    ensures now.all == [] <==> Fits(table, p) && forall e :: e in p.events ==> !ReadsAsBad(e)
  {
    hide Match, HandledAll, OptionsFit, CountOf, ErrorsOf, CheckErrors, Occurrences, ReadsAsBad;
    var start := Start(table);
    var tagged := HandledAll(table, start, optopt, p.events, texts);
    NoErrorIffFit(table, start, optopt, p.events, texts);
    NothingToCheckIff(table, now.counts);
    NoErrorsIff(Match(table, tagged.counts, 0, p.nonoptions));
    if tagged.all == [] {
      assert tagged.counts == OptionCounts(table, p.events);
    }
  }

  /** What the entries count of the options that they keep. */
  function KeptCounts(table: seq<Entry>, events: seq<Event>): (r: seq<nat>)
    ensures |r| == |table| && forall t :: 0 <= t < |table| ==> r[t] == |Kept(table, 0, events, t)|
  {
    seq(|table|, t requires 0 <= t < |table| => |Kept(table, 0, events, t)|)
  }

  /** Every entry holds the arguments of the options that it keeps, followed by the untagged arguments
      that it accepts. */
  lemma ParsedValues(table: seq<Entry>, optopt: int, p: Parse, texts: seq<string>, now: Tally, t: nat)
    requires |texts| == |p.events| && ParsedAs(table, Start(table), optopt, p, texts, now) && t < |table|
    requires forall i :: 0 <= i < |p.events| && p.events[i].Long? ==> p.events[i].index < |LongOptions(table)|
    ensures var kept, r := Kept(table, 0, p.events, t), Match(table, KeptCounts(table, p.events), 0, p.nonoptions);
      && now.counts[t] == |kept| + CountOf(r, t)
      && now.values[t] == Arguments(kept) + ValuesOf(r, p.nonoptions, t)
  {
    hide Match, HandledAll, CountOf, ValuesOf, ErrorsOf, CheckErrors, Kept, Arguments, LongOptions;
    var start := Start(table);
    var tagged := HandledAll(table, start, optopt, p.events, texts);
    forall u | 0 <= u < |table|
      ensures tagged.counts[u] == |Kept(table, 0, p.events, u)|
      ensures tagged.values[u] == Arguments(Kept(table, 0, p.events, u))
    {
      KeptValues(table, start, optopt, p.events, texts, u);
      assert [] + Arguments(Kept(table, 0, p.events, u)) == Arguments(Kept(table, 0, p.events, u));
    }
    assert tagged.counts == KeptCounts(table, p.events);
  }

  /** A parse without errors keeps the argument of every option. */
  lemma FitsKeepsAll(table: seq<Entry>, p: Parse, t: nat)
    requires Fits(table, p) && (forall e :: e in p.events ==> !ReadsAsBad(e)) && t < |table|
    ensures Kept(table, 0, p.events, t) == ScansOf(table, p.events, t)
  {
    hide Match, CountOf, ReadsAsBad, Taken, Kept, ScansOf, Occurrences;
    AllKept(table, 0, p.events, t);
  }

  lemma EveryEntry(table: seq<Entry>, optopt: int, p: Parse, texts: seq<string>, now: Tally)
    requires |texts| == |p.events| && ParsedAs(table, Start(table), optopt, p, texts, now)
    requires forall i :: 0 <= i < |p.events| && p.events[i].Long? ==> p.events[i].index < |LongOptions(table)|
    ensures |now.counts| == |now.values| == |table|
    ensures var r := Match(table, KeptCounts(table, p.events), 0, p.nonoptions);
      forall t :: 0 <= t < |table| ==>
        var kept := Kept(table, 0, p.events, t);
        && now.counts[t] == |kept| + CountOf(r, t)
        && now.values[t] == Arguments(kept) + ValuesOf(r, p.nonoptions, t)
        && (Fits(table, p) && (forall e :: e in p.events ==> !ReadsAsBad(e)) ==> kept == ScansOf(table, p.events, t))
  {
    hide Match, CountOf, ValuesOf, Kept, Arguments, ScansOf, Fits, ReadsAsBad, LongOptions;
    forall t | 0 <= t < |table|
      ensures var kept, r := Kept(table, 0, p.events, t), Match(table, KeptCounts(table, p.events), 0, p.nonoptions);
        && now.counts[t] == |kept| + CountOf(r, t)
        && now.values[t] == Arguments(kept) + ValuesOf(r, p.nonoptions, t)
        && (Fits(table, p) && (forall e :: e in p.events ==> !ReadsAsBad(e)) ==> kept == ScansOf(table, p.events, t))
    {
      ParsedValues(table, optopt, p, texts, now, t);
      if Fits(table, p) && forall e :: e in p.events ==> !ReadsAsBad(e) {
        FitsKeepsAll(table, p, t);
      }
    }
  }

  /** An entry that declares '?' can never be used: the argument "-?" fits the table but is refused as
      a bad option, under the character that an earlier bad option has left. */
  lemma QuestionMarkRefused(e: Entry, optopt: int, text: string)
    requires e.shortopts == "?" && !e.hasValue && !e.hasOptValue && e.longopts == "" && e.tagged
    requires e.scans && e.valid(None) && e.mincount <= 1 <= e.maxcount
    ensures var p := Reference(OptionsFor([e], false), ["-?"]);
      && p.events == [Short('?', None)] && Fits([e], p)
      && HandledAll([e], Start([e]), optopt, p.events, [text]).all
         == [if optopt == 0 then Error(ARG_ELONGOPT, EndOfTable, Some(text)) else Error(optopt, EndOfTable, None)]
  {
    QuestionMarkScanned(e);
    var event := Short('?', None);
    assert [event][..0] == [] && |[event]| == 1;
    QuestionMarkFits(e);
    var p := Reference(OptionsFor([e], false), ["-?"]);
    assert p.events == [event] && p.nonoptions == [];
    assert HandledAll([e], Start([e]), optopt, [event][..0], [text][..0]) == Start([e]);
    assert OptoptAfter(optopt, [event]) == optopt;
  }

  lemma QuestionMarkScanned(e: Entry)
    requires e.shortopts == "?" && !e.hasValue && !e.hasOptValue
    ensures Reference(OptionsFor([e], false), ["-?"]) == Parse([Short('?', None)], ["-?"], [])
  {
    hide ShortOptions, LongOptions, ShortOption, Cluster, IsLongElement;
    var o := OptionsFor([e], false);
    OneShortOption(e);
    QuestionMarkCluster(o);
    assert ["-?"][1..] == [] && "-?"[1..] == "?";
    assert ["-?"][..1] == ["-?"];
    NothingToParse(o);
  }

  lemma QuestionMarkCluster(o: Options)
    requires o.short == ":?"
    ensures Cluster(o, "-?", "?", []) == ([Short('?', None)], 0) && !IsLongElement(o, "-?")
  {
    assert "-?"[1..] == "?" && "?"[1..] == "" && ":?"[1..] == "?";
    assert IndexOf(":?", '?') == 1;
    assert ShortOption(o, "-?", "?", None) == (Short('?', None), "", false);
  }

  lemma NothingToParse(o: Options)
    ensures Reference(o, []) == Parse([], [], [])
  {
  }

  lemma OneShortOption(e: Entry)
    requires |e.shortopts| == 1 && !e.hasValue && !e.hasOptValue
    ensures ShortOptions([e]) == ":" + e.shortopts
  {
    assert [e][..0] == [] && e.shortopts[..0] == "" && e.shortopts == [e.shortopts[0]];
    assert ShortOf(e.shortopts, e) == "" + Declared(e.shortopts[0], e);
  }

  lemma QuestionMarkFits(e: Entry)
    requires e.shortopts == "?" && e.scans && e.valid(None) && e.mincount <= 1 <= e.maxcount
    ensures Fits([e], Parse([Short('?', None)], ["-?"], []))
  {
    var event := Short('?', None);
    assert [event][..0] == [];
    assert '?' in [e][0].shortopts;
    assert ShortEntry([e], '?') == 0;
    assert ScansEntry([e], event, 0) && Taken([e], event);
    assert Occurrences([e], [event], 0) == 1;
    var counts := OptionCounts([e], [event]);
    assert Match([e], counts, 0, []) == [];
    assert CountOf([], 0) == 0;
  }

  /** Parses a command line; the caller's argv is not rearranged.  The result is the number of
      errors shown, which is zero if and only if the command line fits the table and gives no
      option '?'.  The variable `optopt` still holds what an earlier parse has left. */
  method ArgParse(table: Table, argv: array<string>, posixlyCorrect: bool, optopt: int)
    returns (errors: nat, ghost texts: seq<string>)
    requires table.Valid()
    modifies table, table.end, table.end.errors
    ensures table.Valid() && errors == table.end.count == |Shown(table.end.all, table.end.errors.Length)|
    ensures errors == 0 <==> table.end.all == []
    ensures argv.Length == 0 ==>
      table.Now() == Start(table.table).(all := CheckErrors(table.table, Start(table.table).counts))
    ensures argv.Length > 0 ==>
      var p := Reference(OptionsFor(table.table, posixlyCorrect), argv[1..]);
      && |texts| == |p.events|
      && ParsedAs(table.table, Start(table.table), optopt, p, texts, table.Now())
      && (errors == 0 <==> Fits(table.table, p) && forall e :: e in p.events ==> !ReadsAsBad(e))
      && (var r := Match(table.table, KeptCounts(table.table, p.events), 0, p.nonoptions);
          forall t :: 0 <= t < |table.table| ==>
            var kept := Kept(table.table, 0, p.events, t);
            && table.counts[t] == |kept| + CountOf(r, t)
            && table.values[t] == Arguments(kept) + ValuesOf(r, p.nonoptions, t)
            && (errors == 0 ==> kept == ScansOf(table.table, p.events, t)))
  {
    hide ParsedAs, Fits, CheckErrors, Reference, ReadsAsBad, Kept, ScansOf, Match, CountOf, ValuesOf, Arguments;
    table.Reset();
    texts := [];
    if argv.Length == 0 {
      table.ParseCheck();
    } else {
      texts := ParseArguments(table, argv, posixlyCorrect, optopt);
      ghost var p := Reference(OptionsFor(table.table, posixlyCorrect), argv[1..]);
      ReferenceInRange(OptionsFor(table.table, posixlyCorrect), argv[1..]);
      NoErrorIffFits(table.table, optopt, p, texts, table.Now());
      EveryEntry(table.table, optopt, p, texts, table.Now());
    }
    errors := table.end.count;
  }

  /** The options of a command line, parsed on a copy of argv. */
  method ParseOptions(table: Table, argv: array<string>, posixlyCorrect: bool, optopt: int)
    returns (rest: array<string>, start: nat, ghost texts: seq<string>)
    requires table.Valid() && argv.Length > 0
    modifies table, table.end, table.end.errors
    ensures fresh(rest) && table.Valid() && start <= rest.Length
    ensures var p := Reference(OptionsFor(table.table, posixlyCorrect), argv[1..]);
      && |texts| == |p.events| && table.Now() == HandledAll(table.table, old(table.Now()), optopt, p.events, texts)
      && rest[start..] == p.nonoptions
  {
    hide Reference, HandledAll, LongOptions, ShortOptions;
    var long := AllocLongOptions(table.table);
    var short := AllocShortOptions(table.table);
    var argvcopy := new string[argv.Length](i requires 0 <= i < argv.Length reads argv => argv[i]);
    assert argvcopy[..] == argv[..];
    var scanner := new Scanner(argvcopy, Options(short, Some(long), posixlyCorrect), optopt);
    assert scanner.original[1..] == argv[1..];
    texts := ParseTagged(table, scanner);
    rest, start := scanner.argv, scanner.optind;
  }

  method ParseArguments(table: Table, argv: array<string>, posixlyCorrect: bool, optopt: int)
    returns (ghost texts: seq<string>)
    requires table.Valid() && table.Now() == Start(table.table) && argv.Length > 0
    modifies table, table.end, table.end.errors
    ensures table.Valid()
    ensures var p := Reference(OptionsFor(table.table, posixlyCorrect), argv[1..]);
      |texts| == |p.events| && ParsedAs(table.table, Start(table.table), optopt, p, texts, table.Now())
  {
    hide Reference, HandledAll, Match, CheckErrors, OptionsFor, ErrorsOf, CountOf, ValuesOf, Total, ParsedAs, Start;
    var rest, start;
    rest, start, texts := ParseOptions(table, argv, posixlyCorrect, optopt);
    ghost var p, tagged := Reference(OptionsFor(table.table, posixlyCorrect), argv[1..]), table.Now();
    var optind := table.ParseUntagged(rest, start);
    ghost var untagged := table.Now();
    if table.end.count == 0 {
      table.ParseCheck();
    }
    BothParts(table.table, Start(table.table), optopt, p, texts, tagged, untagged, table.Now());
  }

  lemma BothParts(table: seq<Entry>, start: Tally, optopt: int, p: Parse, texts: seq<string>, tagged: Tally,
                  untagged: Tally, now: Tally)
    requires Sized(table, start) && Sized(table, untagged) && |texts| == |p.events|
    requires tagged == HandledAll(table, start, optopt, p.events, texts)
    requires var r := Match(table, tagged.counts, 0, p.nonoptions);
      && untagged.all == tagged.all + ErrorsOf(r)
      && (forall t :: 0 <= t < |table| ==> untagged.counts[t] == tagged.counts[t] + CountOf(r, t))
      && (forall t :: 0 <= t < |table| ==> untagged.values[t] == tagged.values[t] + ValuesOf(r, p.nonoptions, t))
    requires now
          == untagged.(all := untagged.all + if untagged.all == [] then CheckErrors(table, untagged.counts) else [])
    ensures ParsedAs(table, start, optopt, p, texts, now)
  {
    hide HandledAll, Match, CheckErrors, ErrorsOf, CountOf, ValuesOf;
  }
}
