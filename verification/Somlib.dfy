/** The text format for feature vectors: what is written can be read back. */
module Somlib {
  import opened Wrappers
  import opened Text

  datatype FvType = FvType(name: string, dimensionX: nat, dimensionY: nat)

  datatype FeatureVector = FeatureVector(values: seq<real>, fileUri: string)

  // -------------------------------------------------------------------- writing

  function Lower(s: string): (r: string)
    ensures |r| == |s|
  {
    seq(|s|, i requires 0 <= i < |s| => if 'A' <= s[i] <= 'Z' then s[i] - 'A' + 'a' else s[i])
  }

  /** Capital letters become the small ones at the same place of the alphabet, and nothing else changes. */
  lemma LowerMeaning(s: string, i: nat)
    requires i < |s|
    ensures var c := Lower(s)[i];
      && !('A' <= c <= 'Z')
      && ('A' <= s[i] <= 'Z' ==> 'a' <= c <= 'z' && c as int - 'a' as int == s[i] as int - 'A' as int)
      && (!('A' <= s[i] <= 'Z') ==> c == s[i])
  {
  }

  function DataType(t: FvType): string {
    Lower("audio-" + t.name)
  }

  function Size(t: FvType): nat {
    t.dimensionX * t.dimensionY
  }

  const HEADER_KEYS: seq<string> := ["$TYPE", "$DATA_TYPE", "$DATA_DIM", "$XDIM", "$YDIM", "$VEC_DIM"]

  function HeaderValue(t: FvType, count: nat, i: nat): string {
    match i
    case 0 => "vec"
    case 1 => DataType(t)
    case 2 => PrintNat(t.dimensionX) + "x" + PrintNat(t.dimensionY)
    case 3 => PrintNat(count)
    case 4 => "1"
    case _ => PrintNat(Size(t))
  }

  /** The header lines: a key and its value. */
  function Header(t: FvType, count: nat): (r: seq<string>)
    ensures |r| == |HEADER_KEYS|
    ensures forall i :: 0 <= i < |r| ==> r[i] == HEADER_KEYS[i] + " " + HeaderValue(t, count, i)
  {
    seq(|HEADER_KEYS|, i requires 0 <= i < |HEADER_KEYS| => HEADER_KEYS[i] + " " + HeaderValue(t, count, i))
  }

  /** Every column followed by a space. */
  function Columns(words: seq<string>): string {
    if words == [] then "" else words[0] + " " + Columns(words[1..])
  }

  function PrintedValues(values: seq<real>, printer: real -> string): (r: seq<string>)
    ensures |r| == |values| && forall i :: 0 <= i < |values| ==> r[i] == printer(values[i])
  {
    seq(|values|, i requires 0 <= i < |values| => printer(values[i]))
  }

  function EntryLine(fv: FeatureVector, printer: real -> string): string {
    Columns(PrintedValues(fv.values, printer)) + fv.fileUri
  }

  function EntryLines(fvs: seq<FeatureVector>, printer: real -> string): (r: seq<string>)
    ensures |r| == |fvs| && forall i :: 0 <= i < |fvs| ==> r[i] == EntryLine(fvs[i], printer)
  {
    seq(|fvs|, i requires 0 <= i < |fvs| => EntryLine(fvs[i], printer))
  }

  function Ended(lines: seq<string>): string {
    if lines == [] then "" else lines[0] + "\n" + Ended(lines[1..])
  }

  lemma {:induction false} EndedConcat(a: seq<string>, b: seq<string>)
    ensures Ended(a + b) == Ended(a) + Ended(b)
  {
    if a == [] {
      assert a + b == b;
    } else {
      EndedConcat(a[1..], b);
      assert (a + b)[1..] == a[1..] + b;
      assert Ended(a + b) == a[0] + "\n" + (Ended(a[1..]) + Ended(b));
    }
  }

  lemma EndedStep(written: string, lines: seq<string>, i: nat)
    requires i < |lines|
    ensures written + Ended(lines[i..]) == written + lines[i] + "\n" + Ended(lines[i + 1..])
    ensures written + Ended(lines[i..]) == written + (lines[i] + "\n") + Ended(lines[i + 1..])
  {
    assert lines[i..][1..] == lines[i + 1..];
  }

  lemma EndedNone(written: string, lines: seq<string>)
    requires lines == []
    ensures written + Ended(lines) == written
  {
  }

  /** Writes feature vectors of one type to a file. */
  class Output {
    var outfile: string
    const printer: real -> string

    constructor (printer: real -> string)
      ensures outfile == "" && this.printer == printer
    {
      outfile := "";
      this.printer := printer;
    }

    method WriteHeader(t: FvType, vectorSize: nat)
      modifies this`outfile
      ensures outfile == old(outfile) + Ended(Header(t, vectorSize))
    {
      hide Ended;
      var lines := Header(t, vectorSize);
      hide Header;
      var i := 0;
      while i < |lines|
        invariant 0 <= i <= |lines|
        invariant outfile + Ended(lines[i..]) == old(outfile) + Ended(lines)
      {
        EndedStep(outfile, lines, i);
        outfile := outfile + lines[i] + "\n";
        i := i + 1;
      }
      EndedNone(outfile, lines[i..]);
    }

    method WriteEntry(fv: FeatureVector)
      modifies this`outfile
      ensures outfile == old(outfile) + EntryLine(fv, printer) + "\n"
    {
      var ss := "";
      var n := 0;
      ghost var words := PrintedValues(fv.values, printer);
      while n < |fv.values|
        invariant 0 <= n <= |fv.values|
        invariant ss + Columns(words[n..]) == Columns(words)
      {
        assert words[n..][1..] == words[n + 1..];
        ss := ss + printer(fv.values[n]) + " ";
        n := n + 1;
      }
      ss := ss + fv.fileUri + "\n";
      assert ss == EntryLine(fv, printer) + "\n";
      outfile := outfile + ss;
    }

    method WriteEntries(fvs: seq<FeatureVector>)
      modifies this`outfile
      ensures outfile == old(outfile) + Ended(EntryLines(fvs, printer))
    {
      ghost var lines := EntryLines(fvs, printer);
      hide Ended, EntryLine;
      var i := 0;
      while i < |fvs|
        invariant 0 <= i <= |fvs|
        invariant outfile + Ended(lines[i..]) == old(outfile) + Ended(lines)
      {
        EndedStep(outfile, lines, i);
        WriteEntry(fvs[i]);
        i := i + 1;
      }
      EndedNone(outfile, lines[i..]);
    }

    method WriteAll(t: FvType, fvs: seq<FeatureVector>) returns (written: bool)
      requires outfile == ""
      modifies this`outfile
      ensures written <==> fvs != []
      ensures outfile == if written then Ended(Header(t, |fvs|) + EntryLines(fvs, printer)) else ""
    {
      if |fvs| == 0 {
        return false;
      }
      hide *;
      EndedConcat(Header(t, |fvs|), EntryLines(fvs, printer));
      WriteHeader(t, |fvs|);
      assert outfile == Ended(Header(t, |fvs|));
      WriteEntries(fvs);
      return true;
    }
  }

  // -------------------------------------------------------------------- reading

  datatype Fields = Fields(sFvName: string, ulFvCount: nat, uiFvSize: nat)

  /** The header fields after one line; None when the parser throws or reads a missing
      token. */
  function HeaderLine(line: string, h: Fields): Option<Fields> {
    var l := Trim(line);
    if l == "" || l[0] == '#' then Some(h)
    else
      var toks := Tokens(l);
      if |toks| == 0 || toks[0] !in {"$DATA_TYPE", "$XDIM", "$YDIM", "$VEC_DIM", "$DATA_DIM"} then Some(h)
      else if |toks| == 1 then None
      else HeaderField(toks[0], toks[1], h)
  }

  function HeaderField(key: string, value: string, h: Fields): Option<Fields> {
    if key == "$DATA_TYPE" then Some(h.(sFvName := value))
    else if key == "$DATA_DIM" then Some(h)
    else
      match ReadNat(value)
      case None => None
      case Some(n) =>
        if key == "$XDIM" then Some(h.(ulFvCount := n))
        else if key == "$VEC_DIM" then Some(h.(uiFvSize := n))
        else if n == 1 then Some(h) else None
  }

  function HeaderLines(lines: seq<string>, h: Fields): Option<Fields> {
    if lines == [] then Some(h)
    else
      match HeaderLine(lines[0], h)
      case None => None
      case Some(h') => HeaderLines(lines[1..], h')
  }

  /** Every text followed by a space. */
  function Label(toks: seq<string>): string {
    Trim(Columns(toks))
  }

  function ReadAll(words: seq<string>, read': string -> Option<real>): Option<seq<real>> {
    if words == [] then Some([])
    else
      match (read'(words[0]), ReadAll(words[1..], read'))
      case (Some(v), Some(vs)) => Some([v] + vs)
      case _ => None
  }

  datatype Line = Skipped | Failed | Data(uri: string, values: seq<real>)

  /** One line of the data part: skipped, a label with its vector, or an abort because a
      column is no number or there are too few columns. */
  function DataLine(line: string, size: nat, read': string -> Option<real>): Line {
    var l := Trim(line);
    if l == "" || l[0] == '$' || l[0] == '#' then Skipped
    else
      var toks := Tokens(l);
      if |toks| == 0 || |toks| - 1 < size then Failed
      else
        match ReadAll(toks[..size], read')
        case None => Failed
        case Some(values) => Data(Label(toks[size..]), values)
  }

  function DataLines(lines: seq<string>, size: nat, read': string -> Option<real>, m: map<string, seq<real>>):
    Option<map<string, seq<real>>>
  {
    if lines == [] then Some(m)
    else
      match DataLine(lines[0], size, read')
      case Skipped => DataLines(lines[1..], size, read', m)
      case Failed => None
      case Data(uri, values) => DataLines(lines[1..], size, read', m[uri := values])
  }

  class SomlibParser {
    const file: string
    const read': string -> Option<real>
    var sFvName: string
    var ulFvCount: nat
    var uiFvSize: nat

    constructor (file: string, read': string -> Option<real>)
      ensures this.file == file && this.read' == read'
    {
      this.file, this.read' := file, read';
      sFvName, ulFvCount, uiFvSize := "not-set", 0, 0;
    }

    function FieldsNow(): Fields
      reads this
    {
      Fields(sFvName, ulFvCount, uiFvSize)
    }

    /** Reads the header fields; false stands for an exception. */
    method ParseHeader() returns (ok: bool)
      modifies this
      ensures var r := HeaderLines(Lines(file), Fields("not-set", 0, 0));
        && (ok <==> r.Some? && r.value.uiFvSize != 0)
        && (ok ==> FieldsNow() == r.value)
    {
      sFvName, ulFvCount, uiFvSize := "not-set", 0, 0;
      var lines := Lines(file);
      var i := 0;
      while i < |lines|
        invariant 0 <= i <= |lines|
        invariant HeaderLines(lines[i..], FieldsNow()) == HeaderLines(lines, Fields("not-set", 0, 0))
      {
        assert lines[i..][1..] == lines[i + 1..];
        ghost var h := FieldsNow();
        ok := ParseHeaderLine(lines[i]);
        if !ok {
          return;
        }
        i := i + 1;
      }
      ok := uiFvSize != 0;
    }

    method ParseHeaderLine(text: string) returns (ok: bool)
      modifies this
      ensures var r := HeaderLine(text, old(FieldsNow()));
        (ok <==> r.Some?) && (ok ==> FieldsNow() == r.value)
    {
      var line := TrimWhitespace(text);
      if line == "" || line[0] == '#' {
        return true;
      }
      var vTokens := Tokenize(line);
      if |vTokens| == 0 || vTokens[0] !in {"$DATA_TYPE", "$XDIM", "$YDIM", "$VEC_DIM", "$DATA_DIM"} {
        return true;
      }
      if |vTokens| == 1 {
        return false;
      }
      if vTokens[0] == "$DATA_TYPE" {
        sFvName := vTokens[1];
      } else if vTokens[0] != "$DATA_DIM" {
        var n := ReadNat(vTokens[1]);
        if n.None? {
          return false;
        }
        if vTokens[0] == "$XDIM" {
          ulFvCount := n.value;
        } else if vTokens[0] == "$VEC_DIM" {
          uiFvSize := n.value;
        } else if n.value != 1 {
          return false;
        }
      }
      return true;
    }

    /** Fills the map of feature vectors; false stands for an exception or an abort. */
    method ParseMain() returns (ok: bool, fvmap: map<string, seq<real>>)
      ensures var r := DataLines(Lines(file), uiFvSize, read', map[]);
        (ok <==> r.Some?) && (ok ==> fvmap == r.value)
    {
      fvmap := map[];
      var lines := Lines(file);
      var i := 0;
      while i < |lines|
        invariant 0 <= i <= |lines|
        invariant DataLines(lines[i..], uiFvSize, read', fvmap) == DataLines(lines, uiFvSize, read', map[])
      {
        assert lines[i..][1..] == lines[i + 1..];
        var line := ParseDataLine(lines[i]);
        match line {
          case Skipped =>
          case Failed => return false, fvmap;
          case Data(uri, values) => fvmap := fvmap[uri := values];
        }
        i := i + 1;
      }
      ok := true;
    }

    method ParseDataLine(text: string) returns (r: Line)
      ensures r == DataLine(text, uiFvSize, read')
    {
      var line := TrimWhitespace(text);
      if line == "" || line[0] == '$' || line[0] == '#' {
        return Skipped;
      }
      var vTokens := Tokenize(line);
      if |vTokens| == 0 {
        return Failed;
      }
      var buf: seq<real> := [];
      var cnt := 0;
      while cnt < uiFvSize && cnt < |vTokens| - 1
        invariant 0 <= cnt <= uiFvSize && cnt <= |vTokens| - 1
        invariant ReadAll(vTokens[..cnt], read') == Some(buf)
      {
        ReadAllAppend(vTokens[..cnt], vTokens[cnt], read');
        assert vTokens[..cnt + 1] == vTokens[..cnt] + [vTokens[cnt]];
        var v := read'(vTokens[cnt]);
        if v.None? {
          ReadAllPrefix(vTokens, cnt + 1, uiFvSize, read');
          return Failed;
        }
        buf := buf + [v.value];
        cnt := cnt + 1;
      }
      if cnt != uiFvSize {
        return Failed;
      }
      var tmp := "";
      ghost var rest := vTokens[cnt..];
      while cnt < |vTokens|
        invariant uiFvSize <= cnt <= |vTokens|
        invariant tmp + Columns(vTokens[cnt..]) == Columns(rest)
      {
        assert vTokens[cnt..][1..] == vTokens[cnt + 1..];
        tmp := tmp + vTokens[cnt] + " ";
        cnt := cnt + 1;
      }
      assert vTokens[cnt..] == [] && tmp + "" == tmp;
      var uri := TrimWhitespace(tmp);
      return Data(uri, buf);
    }
  }

  lemma {:induction false} ReadAllAppend(words: seq<string>, w: string, read': string -> Option<real>)
    ensures ReadAll(words + [w], read')
         == if ReadAll(words, read').Some? && read'(w).Some? then Some(ReadAll(words, read').value + [read'(w).value])
            else None
  {
    if words == [] {
      assert words + [w] == [w] && [w][1..] == [];
      assert read'(w).Some? ==> [read'(w).value] + [] == [] + [read'(w).value];
    } else {
      ReadAllAppend(words[1..], w, read');
      assert (words + [w])[1..] == words[1..] + [w] && (words + [w])[0] == words[0];
      if ReadAll(words, read').Some? && read'(w).Some? {
        var v, vs, x := read'(words[0]).value, ReadAll(words[1..], read').value, read'(w).value;
        assert [v] + (vs + [x]) == [v] + vs + [x];
      }
    }
  }

  lemma {:induction false} ReadAllPrefix(words: seq<string>, n: nat, m: nat, read': string -> Option<real>)
    requires n <= |words| && ReadAll(words[..n], read').None?
    ensures n <= m <= |words| ==> ReadAll(words[..m], read').None?
    decreases m
  {
    if n < m <= |words| {
      ReadAllPrefix(words, n, m - 1, read');
      assert words[..m] == words[..m - 1] + [words[m - 1]];
      ReadAllAppend(words[..m - 1], words[m - 1], read');
    }
  }
}
