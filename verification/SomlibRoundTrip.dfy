/** Reading back what was written: exactly which labels survive, and whole files. */
module SomlibRoundTrip {
  import opened Wrappers
  import opened Text
  import opened Somlib

  /** The number printer and reader agree on v, and its text cannot be mistaken for a
      header or a comment. */
  ghost predicate Faithful(v: real, printer: real -> string, read': string -> Option<real>) {
    && IsWord(printer(v)) && printer(v)[0] != '$' && printer(v)[0] != '#'
    && read'(printer(v)) == Some(v)
  }

  ghost predicate AllFaithful(vs: seq<real>, printer: real -> string, read': string -> Option<real>) {
    forall i :: 0 <= i < |vs| ==> Faithful(vs[i], printer, read')
  }

  predicate AllWords(words: seq<string>) {
    forall i :: 0 <= i < |words| ==> IsWord(words[i])
  }

  predicate NoDoubleSpace(s: string) {
    && (forall i :: 0 <= i < |s| ==> s[i] != '\t' && s[i] != '\n')
    && forall i :: 0 <= i < |s| - 1 ==> !(s[i] == ' ' && s[i + 1] == ' ')
  }

  /** A label that survives: words joined by single spaces. */
  predicate Clean(s: string) {
    s != "" && !IsSpace(s[0]) && !IsSpace(s[|s| - 1]) && NoDoubleSpace(s)
  }

  // ------------------------------------------------------------------- one entry

  lemma {:induction false} TokensOfColumns(words: seq<string>, rest: string)
    requires AllWords(words)
    ensures Tokens(Columns(words) + rest) == words + Tokens(rest)
  {
    if words == [] {
      assert "" + rest == rest;
    } else {
      TokensOfColumns(words[1..], rest);
      TokensOfWord(words[0], Columns(words[1..]) + rest);
      assert Columns(words) + rest == words[0] + " " + (Columns(words[1..]) + rest);
      assert words == [words[0]] + words[1..];
    }
  }

  lemma TrimNothing(s: string)
    requires s != "" && !IsSpace(s[0]) && !IsSpace(s[|s| - 1])
    ensures Trim(s) == s
  {
  }

  lemma {:induction false} ColumnsLast(words: seq<string>)
    requires words != []
    ensures Columns(words) == Columns(words[..|words| - 1]) + (words[|words| - 1] + " ")
  {
    if |words| > 1 {
      ColumnsLast(words[1..]);
      assert words[1..][..|words| - 2] == words[1..|words| - 1] == words[..|words| - 1][1..];
    }
  }

  /** The line of an entry after trimming. */
  lemma TrimmedEntry(words: seq<string>, uri: string)
    requires words != [] && AllWords(words)
    ensures TrimRight(uri) != "" ==> Trim(Columns(words) + uri) == Columns(words) + TrimRight(uri)
    ensures TrimRight(uri) == "" ==>
      Trim(Columns(words) + uri) == Columns(words[..|words| - 1]) + words[|words| - 1]
  {
    var line := Columns(words) + uri;
    assert Columns(words)[0] == words[0][0] && TrimLeft(line) == line;
    if TrimRight(uri) != "" {
      TrimRightSuffix(Columns(words), uri);
    } else {
      TrimRightBlank(Columns(words), uri);
      ColumnsLast(words);
      var last := words[|words| - 1];
      assert (last + " ")[..|last + " "| - 1] == last;
      assert TrimRight(last + " ") == last;
      TrimRightSuffix(Columns(words[..|words| - 1]), last + " ");
    }
  }

  /** What the parser makes of a label that is not blank. */
  function NormalLabel(uri: string): string {
    Label(Tokens(TrimRight(uri)))
  }

  lemma {:induction false} PrintedColumns(vs: seq<real>, printer: real -> string, read': string -> Option<real>)
    requires AllFaithful(vs, printer, read')
    ensures AllWords(PrintedValues(vs, printer)) && ReadAll(PrintedValues(vs, printer), read') == Some(vs)
  {
    if vs != [] {
      PrintedColumns(vs[1..], printer, read');
      assert PrintedValues(vs, printer)[1..] == PrintedValues(vs[1..], printer);
      assert vs == [vs[0]] + vs[1..];
      forall i | 0 <= i < |vs| ensures IsWord(PrintedValues(vs, printer)[i]) {
        assert Faithful(vs[i], printer, read');
      }
    }
  }

  /** An entry line is read back with its values and its label normalised; a blank label
      makes the parser abort. */
  lemma EntryReadBack(fv: FeatureVector, printer: real -> string, read': string -> Option<real>)
    requires fv.values != [] && AllFaithful(fv.values, printer, read')
    ensures DataLine(EntryLine(fv, printer), |fv.values|, read')
         == if TrimRight(fv.fileUri) == "" then Failed else Data(NormalLabel(fv.fileUri), fv.values)
  {
    var words := PrintedValues(fv.values, printer);
    PrintedColumns(fv.values, printer, read');
    TrimmedEntry(words, fv.fileUri);
    var l := Trim(EntryLine(fv, printer));
    assert l[0] == words[0][0] by {
      assert Faithful(fv.values[0], printer, read');
      if TrimRight(fv.fileUri) == "" && |words| == 1 {
        assert Columns(words[..0]) == "";
      }
    }
    assert Faithful(fv.values[0], printer, read');
    if TrimRight(fv.fileUri) != "" {
      TokensOfColumns(words, TrimRight(fv.fileUri));
      TrimRightTwice(fv.fileUri);
      var toks := words + Tokens(TrimRight(fv.fileUri));
      LastTokenEnds(TrimRight(fv.fileUri));
      assert toks[..|fv.values|] == words && toks[|fv.values|..] == Tokens(TrimRight(fv.fileUri));
    } else {
      var init, last := words[..|words| - 1], words[|words| - 1];
      TokensOfColumns(init, last);
      TokensOfLastWord(last);
    }
  }

  lemma TrimRightTwice(s: string)
    ensures TrimRight(TrimRight(s)) == TrimRight(s)
  {
    TrimRightEnds(s);
  }

  lemma {:induction false} LastTokenEnds(s: string)
    requires TrimRight(s) == s && s != ""
    ensures Tokens(s) != []
    ensures var t := Tokens(s)[|Tokens(s)| - 1]; t != "" && t[|t| - 1] == s[|s| - 1] && !IsSpace(s[|s| - 1])
    decreases |s|
  {
    TrimRightEnds(s);
    if IsDelimiter(s[0]) {
      LastTokenEnds(s[1..]);
    } else {
      var n := FindFirstOf(s, 0);
      if n < |s| {
        LastTokenEnds(s[n..]);
      } else {
        assert s[n..] == "" && s[..n] == s;
      }
    }
  }

  // ------------------------------------------------------------- which labels survive

  lemma {:induction false} CleanTokens(s: string)
    requires s != "" && !IsDelimiter(s[0]) && !IsDelimiter(s[|s| - 1]) && NoDoubleSpace(s)
    ensures Columns(Tokens(s)) == s + " "
    decreases |s|
  {
    hide NoDoubleSpace, IsDelimiter, Tokens, Columns, FindFirstOf;
    var n := FindFirstOf(s, 0);
    FirstToken(s, n);
    if n == |s| {
      assert s[n..] == "" && s[..n] == s;
      OneColumn(s);
    } else {
      var rest := s[n + 1..];
      CleanRest(s, n);
      CleanTokens(rest);
      FirstColumn(s[..n], Tokens(rest));
      assert s[..n] + " " + (rest + " ") == s[..n] + " " + rest + " ";
      assert s == s[..n] + " " + rest;
    }
  }

  lemma FirstToken(s: string, n: nat)
    requires s != "" && !IsDelimiter(s[0]) && n == FindFirstOf(s, 0)
    ensures 0 < n <= |s| && Tokens(s) == [s[..n]] + Tokens(s[n..])
    ensures n == |s| ==> Tokens(s) == [s]
  {
    hide IsDelimiter;
    if n == |s| {
      assert s[n..] == "" && s[..n] == s;
    }
  }

  lemma FirstColumn(t: string, tokens: seq<string>)
    ensures Columns([t] + tokens) == t + " " + Columns(tokens)
  {
    assert ([t] + tokens)[1..] == tokens;
  }

  lemma OneColumn(t: string)
    ensures Columns([t]) == t + " "
  {
    assert [t][1..] == [];
  }

  lemma TokensSkip(s: string, n: nat)
    requires n < |s| && IsDelimiter(s[n])
    ensures Tokens(s[n..]) == Tokens(s[n + 1..])
  {
    hide IsDelimiter, FindFirstOf;
    assert s[n..][1..] == s[n + 1..];
  }

  /** Behind the first word of a clean text comes one space and another clean text. */
  lemma CleanRest(s: string, n: nat)
    requires n == FindFirstOf(s, 0) < |s|
    requires !IsDelimiter(s[|s| - 1]) && NoDoubleSpace(s)
    ensures s[n] == ' ' && n + 1 < |s| && Tokens(s[n..]) == Tokens(s[n + 1..])
    ensures !IsDelimiter(s[n + 1]) && NoDoubleSpace(s[n + 1..])
  {
    TokensSkip(s, n);
    SliceNoDoubleSpace(s, n + 1, |s|);
    assert s[n + 1..|s|] == s[n + 1..];
  }

  lemma CleanSurvives(s: string)
    requires Clean(s)
    ensures TrimRight(s) == s && NormalLabel(s) == s
  {
    CleanTokens(s);
    assert (s + " ")[..|s + " "| - 1] == s;
    assert TrimLeft(s + " ") == s + " ";
    assert TrimRight(s + " ") == TrimRight(s) == s;
  }

  lemma {:induction false} ColumnsAreNormal(toks: seq<string>)
    requires forall t :: t in toks ==> t != "" && forall i :: 0 <= i < |t| ==> !IsDelimiter(t[i])
    ensures NoDoubleSpace(Columns(toks))
    ensures toks != [] ==> Columns(toks) != "" && Columns(toks)[0] != ' '
  {
    if toks != [] {
      ColumnsAreNormal(toks[1..]);
      var w, rest := toks[0], Columns(toks[1..]);
      var s := w + " " + rest;
      assert w in toks;
      forall i | 0 <= i < |s| ensures s[i] != '\t' && s[i] != '\n' {
        if i > |w| {
          assert s[i] == rest[i - |w| - 1];
        }
      }
      forall i | 0 <= i < |s| - 1 ensures !(s[i] == ' ' && s[i + 1] == ' ') {
        if i > |w| {
          assert s[i] == rest[i - |w| - 1] && s[i + 1] == rest[i - |w|];
        } else if i == |w| {
          assert s[i + 1] == rest[0];
        } else {
          assert s[i] == w[i];
        }
      }
    }
  }

  /** Trimming leaves a stretch of the text, without white space at its ends, that keeps
      every other character. */
  lemma TrimIsSlice(s: string, k: nat) returns (i: nat, j: nat)
    requires k < |s| && !IsSpace(s[k])
    ensures i <= k < j <= |s| && Trim(s) == s[i..j] && !IsSpace(s[i]) && !IsSpace(s[j - 1])
  {
    i := LeftKeeps(s, k);
    var n := RightKeeps(s[i..], k - i);
    j := i + n;
    assert s[i..][..n] == s[i..j];
  }

  lemma {:induction false} LeftKeeps(s: string, k: nat) returns (i: nat)
    requires k < |s| && !IsSpace(s[k])
    ensures i <= k && TrimLeft(s) == s[i..] && !IsSpace(s[i])
  {
    if IsSpace(s[0]) {
      var n := LeftKeeps(s[1..], k - 1);
      i := n + 1;
      assert s[1..][n..] == s[i..];
    } else {
      i := 0;
      assert s[0..] == s;
    }
  }

  lemma {:induction false} RightKeeps(s: string, k: nat) returns (j: nat)
    requires k < |s| && !IsSpace(s[k])
    ensures k < j <= |s| && TrimRight(s) == s[..j] && !IsSpace(s[j - 1])
  {
    if IsSpace(s[|s| - 1]) {
      j := RightKeeps(s[..|s| - 1], k);
      assert s[..|s| - 1][..j] == s[..j];
    } else {
      j := |s|;
      assert s[..j] == s;
    }
  }

  lemma NormalLabelIsClean(uri: string)
    requires TrimRight(uri) != ""
    ensures Clean(NormalLabel(uri))
  {
    var s := TrimRight(uri);
    TrimRightTwice(uri);
    var c := Columns(Tokens(s));
    ColumnsOfText(s);
    hide Tokens, Columns, NoDoubleSpace, IsSpace, TrimRight, Trim;
    var i, j := TrimIsSlice(c, |c| - 2);
    SliceNoDoubleSpace(c, i, j);
  }

  lemma ColumnsOfText(s: string)
    requires TrimRight(s) == s && s != ""
    ensures var c := Columns(Tokens(s));
      |c| >= 2 && !IsSpace(c[|c| - 2]) && NoDoubleSpace(c)
  {
    LastTokenEnds(s);
    TokensHaveNoDelimiter(s);
    hide NoDoubleSpace, TrimRight;
    ColumnsAreNormal(Tokens(s));
    hide IsDelimiter, IsSpace;
    ColumnsLast(Tokens(s));
  }

  lemma SliceNoDoubleSpace(s: string, i: nat, j: nat)
    requires i <= j <= |s| && NoDoubleSpace(s)
    ensures NoDoubleSpace(s[i..j])
  {
    var t := s[i..j];
    forall n | 0 <= n < |t| - 1 ensures !(t[n] == ' ' && t[n + 1] == ' ') {
      assert t[n] == s[i + n] && t[n + 1] == s[i + n + 1];
    }
  }

  /** An entry is read back unchanged if and only if its label is clean. */
  lemma EntryRoundTrip(fv: FeatureVector, printer: real -> string, read': string -> Option<real>)
    requires fv.values != [] && AllFaithful(fv.values, printer, read')
    ensures DataLine(EntryLine(fv, printer), |fv.values|, read') == Data(fv.fileUri, fv.values) <==> Clean(fv.fileUri)
  {
    EntryReadBack(fv, printer, read');
    if Clean(fv.fileUri) {
      CleanSurvives(fv.fileUri);
    } else if TrimRight(fv.fileUri) != "" {
      NormalLabelIsClean(fv.fileUri);
    }
  }

  // ------------------------------------------------------------------ whole files

  lemma {:induction false} LinesOfFile(ls: seq<string>)
    requires forall i :: 0 <= i < |ls| ==> '\n' !in ls[i]
    ensures Lines(Ended(ls)) == ls + [""]
  {
    if ls != [] {
      LinesOfFile(ls[1..]);
      LinesOfMore(ls[0], ls[1..]);
      assert ls == [ls[0]] + ls[1..];
    }
  }

  lemma LinesOfMore(l: string, ls: seq<string>)
    requires '\n' !in l && Lines(Ended(ls)) == ls + [""]
    ensures Lines(l + "\n" + Ended(ls)) == [l] + ls + [""]
  {
    LinesOfLine(l, Ended(ls));
    assert [l] + (ls + [""]) == [l] + ls + [""];
  }

  lemma {:induction false} NoNewlineInColumns(words: seq<string>)
    requires AllWords(words)
    ensures '\n' !in Columns(words)
  {
    if words != [] {
      NoNewlineInColumns(words[1..]);
      assert IsWord(words[0]);
      assert forall c :: c in words[0] ==> !IsSpace(c);
    }
  }

  /** A header line of two words: its first word selects the field. */
  lemma HeaderPair(line: string, key: string, value: string, h: Fields)
    requires IsWord(key) && IsWord(value) && key[0] == '$' && line == key + " " + value
    ensures HeaderLine(line, h)
         == if key in {"$DATA_TYPE", "$XDIM", "$YDIM", "$VEC_DIM", "$DATA_DIM"} then HeaderField(key, value, h)
            else Some(h)
    ensures forall size, read' :: DataLine(line, size, read') == Skipped
    ensures '\n' !in line
  {
    assert line[|line| - 1] == value[|value| - 1];
    TrimNothing(line);
    TokensOfWord(key, value);
    TokensOfLastWord(value);
    assert forall c :: c in key || c in value ==> !IsSpace(c);
  }

  lemma WordConcat(a: string, b: string)
    requires IsWord(a) && IsWord(b)
    ensures IsWord(a + b)
  {
  }

  lemma DataTypeIsWord(t: FvType)
    requires t.name == "" || IsWord(t.name)
    ensures IsWord(DataType(t))
  {
    var s := "audio-" + t.name;
    forall i | 0 <= i < |s| ensures !IsSpace(s[i]) && !IsSpace(Lower(s)[i]) {
      if i >= 6 {
        assert s[i] == t.name[i - 6];
      }
    }
  }

  lemma KeyIsWord(i: nat)
    requires i < |HEADER_KEYS|
    ensures IsWord(HEADER_KEYS[i]) && HEADER_KEYS[i][0] == '$'
  {
  }

  lemma ValueIsWord(t: FvType, count: nat, i: nat)
    requires t.name == "" || IsWord(t.name)
    ensures IsWord(HeaderValue(t, count, i))
  {
    match i
    case 0 =>
    case 1 => DataTypeIsWord(t);
    case 2 =>
      NatRoundTrip(t.dimensionX);
      NatRoundTrip(t.dimensionY);
      WordConcat(PrintNat(t.dimensionX), "x");
      WordConcat(PrintNat(t.dimensionX) + "x", PrintNat(t.dimensionY));
    case 3 => NatRoundTrip(count);
    case 4 =>
    case _ => NatRoundTrip(Size(t));
  }

  /** The header fields after the i-th header line. */
  function FieldsAfter(t: FvType, count: nat, i: nat, h: Fields): Fields {
    match i
    case 1 => h.(sFvName := DataType(t))
    case 3 => h.(ulFvCount := count)
    case 5 => h.(uiFvSize := Size(t))
    case _ => h
  }

  /** The fields that the header lines carry, and that the data part skips them. */
  lemma HeaderReadBack(t: FvType, count: nat, i: nat, h: Fields)
    requires (t.name == "" || IsWord(t.name)) && i < |HEADER_KEYS|
    ensures HeaderLine(Header(t, count)[i], h) == Some(FieldsAfter(t, count, i, h))
    ensures forall size, read' :: DataLine(Header(t, count)[i], size, read') == Skipped
    ensures '\n' !in Header(t, count)[i]
  {
    KeyIsWord(i);
    ValueIsWord(t, count, i);
    HeaderPair(Header(t, count)[i], HEADER_KEYS[i], HeaderValue(t, count, i), h);
    HeaderFieldReadBack(t, count, i, h);
  }

  lemma HeaderFieldReadBack(t: FvType, count: nat, i: nat, h: Fields)
    requires i < |HEADER_KEYS|
    ensures i > 0 ==> HeaderField(HEADER_KEYS[i], HeaderValue(t, count, i), h) == Some(FieldsAfter(t, count, i, h))
    ensures HEADER_KEYS[i] in {"$DATA_TYPE", "$XDIM", "$YDIM", "$VEC_DIM", "$DATA_DIM"} <==> i > 0
  {
    NatRoundTrip(count);
    NatRoundTrip(Size(t));
    NatRoundTrip(1);
    assert PrintNat(1) == "1";
    assert HEADER_KEYS[0] != "$DATA_TYPE" && HEADER_KEYS[0] != "$DATA_DIM";
  }

  ghost predicate Writable(t: FvType, fvs: seq<FeatureVector>, printer: real -> string, read': string -> Option<real>) {
    && (t.name == "" || IsWord(t.name)) && Size(t) >= 1 && fvs != []
    && (forall i :: 0 <= i < |fvs| ==> |fvs[i].values| == Size(t))
    && (forall i :: 0 <= i < |fvs| ==> AllFaithful(fvs[i].values, printer, read'))
    && (forall i :: 0 <= i < |fvs| ==> Clean(fvs[i].fileUri))
  }

  /** An entry line is no header line, and it is read back. */
  lemma EntryInFile(t: FvType, fvs: seq<FeatureVector>, printer: real -> string, read': string -> Option<real>,
                    i: nat, h: Fields)
    requires Writable(t, fvs, printer, read') && i < |fvs|
    ensures HeaderLine(EntryLine(fvs[i], printer), h) == Some(h)
    ensures DataLine(EntryLine(fvs[i], printer), Size(t), read') == Data(fvs[i].fileUri, fvs[i].values)
    ensures '\n' !in EntryLine(fvs[i], printer)
  {
    var fv := fvs[i];
    EntryRoundTrip(fv, printer, read');
    var words := PrintedValues(fv.values, printer);
    PrintedColumns(fv.values, printer, read');
    NoNewlineInColumns(words);
    TrimmedEntry(words, fv.fileUri);
    CleanSurvives(fv.fileUri);
    TokensOfColumns(words, fv.fileUri);
    assert Faithful(fv.values[0], printer, read');
    assert Trim(EntryLine(fv, printer))[0] == words[0][0];
  }

  lemma {:induction false} HeaderLinesConcat(a: seq<string>, b: seq<string>, h: Fields)
    ensures HeaderLines(a + b, h)
         == match HeaderLines(a, h) case None => None case Some(h') => HeaderLines(b, h')
  {
    if a == [] {
      assert a + b == b;
    } else {
      assert (a + b)[1..] == a[1..] + b && (a + b)[0] == a[0];
      match HeaderLine(a[0], h)
      case None =>
      case Some(h') => HeaderLinesConcat(a[1..], b, h');
    }
  }

  lemma HeaderFields(t: FvType, count: nat)
    requires t.name == "" || IsWord(t.name)
    ensures HeaderLines(Header(t, count), Fields("not-set", 0, 0)) == Some(Fields(DataType(t), count, Size(t)))
  {
    var ls := Header(t, count);
    var h0, h1, h3 := Fields("not-set", 0, 0), Fields(DataType(t), 0, 0), Fields(DataType(t), count, 0);
    var h5 := Fields(DataType(t), count, Size(t));
    HeaderReadBack(t, count, 0, h0);
    HeaderReadBack(t, count, 1, h0);
    HeaderReadBack(t, count, 2, h1);
    HeaderReadBack(t, count, 3, h1);
    HeaderReadBack(t, count, 4, h3);
    HeaderReadBack(t, count, 5, h3);
    assert ls[5..][1..] == [];
    assert HeaderLines(ls[5..], h3) == Some(h5);
    assert ls[4..][1..] == ls[5..] && HeaderLines(ls[4..], h3) == Some(h5);
    assert ls[3..][1..] == ls[4..] && HeaderLines(ls[3..], h1) == Some(h5);
    assert ls[2..][1..] == ls[3..] && HeaderLines(ls[2..], h1) == Some(h5);
    assert ls[1..][1..] == ls[2..] && HeaderLines(ls[1..], h0) == Some(h5);
  }

  lemma {:induction false} HeaderIgnores(ls: seq<string>, h: Fields)
    requires forall i :: 0 <= i < |ls| ==> HeaderLine(ls[i], h) == Some(h)
    ensures HeaderLines(ls, h) == Some(h)
  {
    if ls != [] {
      HeaderIgnores(ls[1..], h);
    }
  }

  lemma {:induction false} DataSkips(skipped: seq<string>, ls: seq<string>, size: nat, read': string -> Option<real>,
                                     m: map<string, seq<real>>)
    requires forall i :: 0 <= i < |skipped| ==> DataLine(skipped[i], size, read') == Skipped
    ensures DataLines(skipped + ls, size, read', m) == DataLines(ls, size, read', m)
  {
    if skipped == [] {
      assert skipped + ls == ls;
    } else {
      assert (skipped + ls)[1..] == skipped[1..] + ls;
      DataSkips(skipped[1..], ls, size, read', m);
    }
  }

  /** The map from labels to vectors, filled in file order. */
  function Filled(fvs: seq<FeatureVector>, m: map<string, seq<real>>): map<string, seq<real>> {
    if fvs == [] then m else Filled(fvs[1..], m[fvs[0].fileUri := fvs[0].values])
  }

  lemma {:induction false} FilledByEntries(t: FvType, fvs: seq<FeatureVector>, all: seq<FeatureVector>,
                                           printer: real -> string,
                                           read': string -> Option<real>, m: map<string, seq<real>>)
    requires Writable(t, all, printer, read') && forall fv :: fv in fvs ==> fv in all
    ensures DataLines(EntryLines(fvs, printer) + [""], Size(t), read', m) == Some(Filled(fvs, m))
  {
    var ls := EntryLines(fvs, printer) + [""];
    if fvs == [] {
      assert ls == [""] && ls[1..] == [];
    } else {
      assert fvs[0] in all;
      var i :| 0 <= i < |all| && all[i] == fvs[0];
      EntryInFile(t, all, printer, read', i, Fields("", 0, 0));
      assert ls[0] == EntryLine(fvs[0], printer);
      assert ls[1..] == EntryLines(fvs[1..], printer) + [""];
      FilledByEntries(t, fvs[1..], all, printer, read', m[fvs[0].fileUri := fvs[0].values]);
    }
  }

  /** With distinct labels the map holds exactly the written vectors. */
  lemma {:induction false} FilledMeaning(fvs: seq<FeatureVector>, m: map<string, seq<real>>)
    requires forall i, j :: 0 <= i < j < |fvs| ==> fvs[i].fileUri != fvs[j].fileUri
    ensures forall i :: 0 <= i < |fvs| ==>
      fvs[i].fileUri in Filled(fvs, m) && Filled(fvs, m)[fvs[i].fileUri] == fvs[i].values
    ensures forall u :: u in Filled(fvs, m) ==> u in m || exists i :: 0 <= i < |fvs| && fvs[i].fileUri == u
    ensures forall u :: u in m && (forall i :: 0 <= i < |fvs| ==> fvs[i].fileUri != u) ==>
      u in Filled(fvs, m) && Filled(fvs, m)[u] == m[u]
  {
    if fvs != [] {
      var m' := m[fvs[0].fileUri := fvs[0].values];
      FilledMeaning(fvs[1..], m');
      forall i | 0 <= i < |fvs|
        ensures fvs[i].fileUri in Filled(fvs, m) && Filled(fvs, m)[fvs[i].fileUri] == fvs[i].values
      {
        if i > 0 {
          assert fvs[i] == fvs[1..][i - 1];
        }
      }
      forall u | u in Filled(fvs, m) && u !in m ensures exists i :: 0 <= i < |fvs| && fvs[i].fileUri == u {
        if u != fvs[0].fileUri {
          var i :| 0 <= i < |fvs[1..]| && fvs[1..][i].fileUri == u;
          assert fvs[i + 1].fileUri == u;
        }
      }
    }
  }

  /** A written file is read back: the header fields and the map of all vectors. */
  lemma FileRoundTrip(t: FvType, fvs: seq<FeatureVector>, printer: real -> string, read': string -> Option<real>)
    requires Writable(t, fvs, printer, read')
    ensures var file := Ended(Header(t, |fvs|) + EntryLines(fvs, printer));
      && HeaderLines(Lines(file), Fields("not-set", 0, 0)) == Some(Fields(DataType(t), |fvs|, Size(t)))
      && DataLines(Lines(file), Size(t), read', map[]) == Some(Filled(fvs, map[]))
  {
    LinesOfWrittenFile(t, fvs, printer, read');
    FileHeader(t, fvs, printer, read');
    FileData(t, fvs, printer, read');
  }

  lemma LinesOfWrittenFile(t: FvType, fvs: seq<FeatureVector>, printer: real -> string, read': string -> Option<real>)
    requires Writable(t, fvs, printer, read')
    ensures Lines(Ended(Header(t, |fvs|) + EntryLines(fvs, printer)))
         == Header(t, |fvs|) + (EntryLines(fvs, printer) + [""])
  {
    var header, entries := Header(t, |fvs|), EntryLines(fvs, printer);
    var all := header + entries;
    forall i | 0 <= i < |all| ensures '\n' !in all[i] {
      if i < |header| {
        HeaderReadBack(t, |fvs|, i, Fields("", 0, 0));
      } else {
        EntryInFile(t, fvs, printer, read', i - |header|, Fields("", 0, 0));
      }
    }
    LinesOfFile(all);
    assert all + [""] == header + (entries + [""]);
  }

  lemma FileHeader(t: FvType, fvs: seq<FeatureVector>, printer: real -> string, read': string -> Option<real>)
    requires Writable(t, fvs, printer, read')
    ensures HeaderLines(Header(t, |fvs|) + (EntryLines(fvs, printer) + [""]), Fields("not-set", 0, 0))
         == Some(Fields(DataType(t), |fvs|, Size(t)))
  {
    var rest := EntryLines(fvs, printer) + [""];
    var h := Fields(DataType(t), |fvs|, Size(t));
    HeaderFields(t, |fvs|);
    HeaderLinesConcat(Header(t, |fvs|), rest, Fields("not-set", 0, 0));
    forall i | 0 <= i < |rest| ensures HeaderLine(rest[i], h) == Some(h) {
      if i < |fvs| {
        EntryInFile(t, fvs, printer, read', i, h);
      }
    }
    HeaderIgnores(rest, h);
  }

  lemma FileData(t: FvType, fvs: seq<FeatureVector>, printer: real -> string, read': string -> Option<real>)
    requires Writable(t, fvs, printer, read')
    ensures DataLines(Header(t, |fvs|) + (EntryLines(fvs, printer) + [""]), Size(t), read', map[])
         == Some(Filled(fvs, map[]))
  {
    var header := Header(t, |fvs|);
    forall i | 0 <= i < |header| ensures DataLine(header[i], Size(t), read') == Skipped {
      HeaderReadBack(t, |fvs|, i, Fields("", 0, 0));
    }
    DataSkips(header, EntryLines(fvs, printer) + [""], Size(t), read', map[]);
    FilledByEntries(t, fvs, fvs, printer, read', map[]);
  }

  /** Writing with the output class and reading with the parser class, end to end. */
  method WriteThenRead(t: FvType, fvs: seq<FeatureVector>, printer: real -> string, read': string -> Option<real>)
    returns (parser: SomlibParser, fvmap: map<string, seq<real>>)
    requires Writable(t, fvs, printer, read')
    ensures parser.FieldsNow() == Fields(DataType(t), |fvs|, Size(t))
    ensures fvmap == Filled(fvs, map[])
  {
    FileRoundTrip(t, fvs, printer, read');
    var output := new Output(printer);
    var written := output.WriteAll(t, fvs);
    parser := new SomlibParser(output.outfile, read');
    var headerOk := parser.ParseHeader();
    var mainOk;
    mainOk, fvmap := parser.ParseMain();
  }
}
