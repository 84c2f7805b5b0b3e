/** The lines of a feature file, one by one: what the writer puts into the header, and what the
    parser makes of comments, header lines and data lines. */
module SomlibSyntax {
  import opened Wrappers
  import opened Text
  import opened Somlib
  import opened SomlibRoundTrip

  /** The header lines as they stand in the file. */
  lemma HeaderText(t: FvType, count: nat)
    ensures Header(t, count)
         == ["$TYPE" + " " + "vec",
             "$DATA_TYPE" + " " + Lower("audio-" + t.name),
             "$DATA_DIM" + " " + (PrintNat(t.dimensionX) + "x" + PrintNat(t.dimensionY)),
             "$XDIM" + " " + PrintNat(count),
             "$YDIM" + " " + "1",
             "$VEC_DIM" + " " + PrintNat(t.dimensionX * t.dimensionY)]
  {
    hide PrintNat, Lower;
    var h := Header(t, count);
    assert h == [h[0], h[1], h[2], h[3], h[4], h[5]];
  }

  /** Blank lines and lines with a '#' in front say nothing; for the data, neither do header lines. */
  lemma CommentsSkipped(line: string, h: Fields, size: nat, read': string -> Option<real>)
    ensures Trim(line) == "" || Trim(line)[0] == '#' ==>
      HeaderLine(line, h) == Some(h) && DataLine(line, size, read') == Skipped
    ensures Trim(line) != "" && Trim(line)[0] == '$' ==> DataLine(line, size, read') == Skipped
  {
  }

  /** The header lines that count; the height must be 1, and sizes must be numbers. */
  lemma HeaderKeys(v: string, h: Fields)
    requires IsWord(v)
    ensures HeaderLine("$DATA_TYPE" + " " + v, h) == Some(h.(sFvName := v))
    ensures HeaderLine("$DATA_DIM" + " " + v, h) == Some(h)
    ensures HeaderLine("$XDIM" + " " + v, h) == if IsNumber(v) then Some(h.(ulFvCount := NatValue(v))) else None
    ensures HeaderLine("$VEC_DIM" + " " + v, h) == if IsNumber(v) then Some(h.(uiFvSize := NatValue(v))) else None
    ensures HeaderLine("$YDIM" + " " + v, h) == if IsNumber(v) && NatValue(v) == 1 then Some(h) else None
    ensures HeaderLine("$TYPE" + " " + v, h) == Some(h)
  {
    hide HeaderLine, HeaderField, IsDelimiter;
    KeyLine("$DATA_TYPE", v, h);
    KeyLine("$DATA_DIM", v, h);
    KeyLine("$XDIM", v, h);
    KeyLine("$VEC_DIM", v, h);
    KeyLine("$YDIM", v, h);
    KeyLine("$TYPE", v, h);
    KeyFields(v, h);
  }

  lemma KeyFields(v: string, h: Fields)
    ensures HeaderField("$DATA_TYPE", v, h) == Some(h.(sFvName := v)) && HeaderField("$DATA_DIM", v, h) == Some(h)
    ensures HeaderField("$XDIM", v, h) == if IsNumber(v) then Some(h.(ulFvCount := NatValue(v))) else None
    ensures HeaderField("$VEC_DIM", v, h) == if IsNumber(v) then Some(h.(uiFvSize := NatValue(v))) else None
    ensures HeaderField("$YDIM", v, h) == if IsNumber(v) && NatValue(v) == 1 then Some(h) else None
    ensures "$TYPE" !in {"$DATA_TYPE", "$XDIM", "$YDIM", "$VEC_DIM", "$DATA_DIM"}
  {
    hide IsNumber, NatValue;
    assert |"$DATA_DIM"| != |"$DATA_TYPE"| && |"$TYPE"| == |"$XDIM"| == |"$YDIM"|;
    assert "$DATA_TYPE"[1] == "$DATA_DIM"[1] == 'D' && "$XDIM"[1] == 'X' && "$YDIM"[1] == 'Y' && "$VEC_DIM"[1] == 'V';
    assert "$TYPE"[1] == 'T';
  }

  lemma KeyLine(key: string, v: string, h: Fields)
    requires key in {"$DATA_TYPE", "$XDIM", "$YDIM", "$VEC_DIM", "$DATA_DIM", "$TYPE"} && IsWord(v)
    ensures HeaderLine(key + " " + v, h)
         == if key in {"$DATA_TYPE", "$XDIM", "$YDIM", "$VEC_DIM", "$DATA_DIM"} then HeaderField(key, v, h) else Some(h)
  {
    HeaderPair(key + " " + v, key, v, h);
  }

  lemma {:induction false} ReadAllIff(words: seq<string>, read': string -> Option<real>)
    ensures ReadAll(words, read').Some? <==> forall i :: 0 <= i < |words| ==> read'(words[i]).Some?
    ensures ReadAll(words, read').Some? ==>
      && |ReadAll(words, read').value| == |words|
      && forall i :: 0 <= i < |words| ==> read'(words[i]) == Some(ReadAll(words, read').value[i])
  {
    if words != [] {
      ReadAllIff(words[1..], read');
    }
  }

  /** A data line of words: numbers first, then at least one word for the label. */
  lemma DataLineOfWords(words: seq<string>, size: nat, read': string -> Option<real>)
    requires words != [] && AllWords(words) && words[0][0] != '$' && words[0][0] != '#'
    ensures var r := DataLine(Columns(words), size, read');
      && (r == Failed <==> |words| <= size || exists i :: 0 <= i < size && read'(words[i]).None?)
      && (r != Failed ==>
            && r.Data? && |r.values| == size && r.uri == Label(words[size..])
            && forall i :: 0 <= i < size ==> read'(words[i]) == Some(r.values[i]))
  {
    hide Tokens, ReadAll, Label, IsWord;
    TokensOfLine(words);
    if size < |words| {
      ReadAllIff(words[..size], read');
    }
  }

  lemma TokensOfLine(words: seq<string>)
    requires words != [] && AllWords(words)
    ensures var l := Trim(Columns(words)); l != "" && l[0] == words[0][0] && Tokens(l) == words
  {
    var n := |words| - 1;
    assert words == words[..n] + [words[n]];
    assert Columns(words) + "" == Columns(words);
    TrimmedEntry(words, "");
    TokensOfColumns(words[..n], words[n]);
    TokensOfLastWord(words[n]);
    if n > 0 {
      assert Columns(words[..n]) == words[0] + " " + Columns(words[..n][1..]);
    }
  }

  /** A label of one word is that word, and further words follow behind single spaces. */
  lemma LabelOfWords(words: seq<string>)
    requires words != [] && AllWords(words)
    ensures Label(words) == Columns(words[..|words| - 1]) + words[|words| - 1]
  {
    assert Columns(words) + "" == Columns(words);
    TrimmedEntry(words, "");
  }
}
