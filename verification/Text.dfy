/** Lines, trimming and tokens, as the string helpers of the feature file code treat them. */
module Text {
  import opened Strings
  import opened Wrappers

  predicate IsDelimiter(c: char) { c == ' ' || c == '\t' || c == '\n' }

  predicate IsSpace(c: char) { IsDelimiter(c) || c == '\r' }

  /** A non-empty text without white space. */
  predicate IsWord(w: string) {
    w != "" && forall i :: 0 <= i < |w| ==> !IsSpace(w[i])
  }

  // ------------------------------------------------------------------ trimming

  function TrimLeft(s: string): string {
    if s != "" && IsSpace(s[0]) then TrimLeft(s[1..]) else s
  }

  function TrimRight(s: string): string {
    if s != "" && IsSpace(s[|s| - 1]) then TrimRight(s[..|s| - 1]) else s
  }

  function Trim(s: string): string {
    TrimRight(TrimLeft(s))
  }

  /** Removes white space at both ends. */
  method TrimWhitespace(str: string) returns (r: string)
    ensures r == Trim(str)
  {
    var startpos := 0;
    while startpos < |str| && IsSpace(str[startpos])
      invariant 0 <= startpos <= |str|
      invariant TrimLeft(str) == TrimLeft(str[startpos..])
    {
      assert str[startpos..][1..] == str[startpos + 1..];
      startpos := startpos + 1;
    }
    var endpos := |str|;
    assert str[startpos..] == str[startpos..endpos];
    while endpos > startpos && IsSpace(str[endpos - 1])
      invariant startpos <= endpos <= |str|
      invariant TrimRight(str[startpos..]) == TrimRight(str[startpos..endpos])
    {
      assert str[startpos..endpos][..endpos - startpos - 1] == str[startpos..endpos - 1];
      endpos := endpos - 1;
    }
    r := str[startpos..endpos];
  }

  lemma {:induction false} TrimRightSuffix(s: string, t: string)
    requires TrimRight(t) != ""
    ensures TrimRight(s + t) == s + TrimRight(t)
  {
    if IsSpace(t[|t| - 1]) {
      assert (s + t)[..|s + t| - 1] == s + t[..|t| - 1];
      TrimRightSuffix(s, t[..|t| - 1]);
    }
  }

  lemma {:induction false} TrimRightBlank(s: string, t: string)
    requires TrimRight(t) == ""
    ensures TrimRight(s + t) == TrimRight(s)
  {
    if t == "" {
      assert s + t == s;
    } else {
      assert (s + t)[..|s + t| - 1] == s + t[..|t| - 1];
      TrimRightBlank(s, t[..|t| - 1]);
    }
  }

  lemma {:induction false} TrimRightEnds(s: string)
    ensures TrimRight(s) <= s
    ensures TrimRight(s) != "" ==> !IsSpace(TrimRight(s)[|TrimRight(s)| - 1])
  {
    if s != "" && IsSpace(s[|s| - 1]) {
      TrimRightEnds(s[..|s| - 1]);
    }
  }

  // -------------------------------------------------------------------- tokens

  function FindFirstNotOf(s: string, from: nat): (i: nat)
    ensures i <= |s| || i == from
    ensures i >= from
    ensures forall j :: from <= j < i ==> j < |s| && IsDelimiter(s[j])
    ensures i < |s| ==> !IsDelimiter(s[i])
    decreases |s| - from
  {
    if from < |s| && IsDelimiter(s[from]) then FindFirstNotOf(s, from + 1) else from
  }

  function FindFirstOf(s: string, from: nat): (i: nat)
    ensures i <= |s| || i == from
    ensures i >= from
    ensures forall j :: from <= j < i ==> j < |s| && !IsDelimiter(s[j])
    ensures i < |s| ==> IsDelimiter(s[i])
    decreases |s| - from
  {
    if from < |s| && !IsDelimiter(s[from]) then FindFirstOf(s, from + 1) else from
  }

  /** The maximal runs of non-delimiters. */
  function Tokens(s: string): seq<string>
    decreases |s|
  {
    if s == "" then []
    else if IsDelimiter(s[0]) then Tokens(s[1..])
    else
      var n := FindFirstOf(s, 0);
      [s[..n]] + Tokens(s[n..])
  }

  method Tokenize(str: string) returns (tokens: seq<string>)
    ensures tokens == Tokens(str)
  {
    tokens := [];
    var lastPos := FindFirstNotOf(str, 0);
    var pos := FindFirstOf(str, lastPos);
    SkipDelimiters(str, 0);
    assert str[0..] == str;
    while pos < |str| || lastPos < |str|
      invariant lastPos <= |str| && pos == FindFirstOf(str, lastPos) && lastPos == FindFirstNotOf(str, lastPos)
      invariant tokens + Tokens(str[lastPos..]) == Tokens(str)
      decreases |str| - lastPos
    {
      TokenStep(tokens, str, lastPos);
      tokens := tokens + [str[lastPos..pos]];
      lastPos := FindFirstNotOf(str, pos);
      pos := FindFirstOf(str, lastPos);
    }
  }

  /** Taking over one token leaves the tokens behind the delimiters that follow it. */
  lemma TokenStep(tokens: seq<string>, s: string, from: nat)
    requires from < |s| && !IsDelimiter(s[from])
    ensures var pos := FindFirstOf(s, from);
      var next := FindFirstNotOf(s, pos);
      && from < pos && next <= |s| && next == FindFirstNotOf(s, next)
      && tokens + [s[from..pos]] + Tokens(s[next..]) == tokens + Tokens(s[from..])
  {
    TokenAt(s, from);
    SkipDelimiters(s, FindFirstOf(s, from));
  }

  lemma {:induction false} SkipDelimiters(s: string, from: nat)
    requires from <= |s|
    ensures FindFirstNotOf(s, from) <= |s|
    ensures Tokens(s[from..]) == Tokens(s[FindFirstNotOf(s, from)..])
    decreases |s| - from
  {
    if from < |s| && IsDelimiter(s[from]) {
      assert s[from..][1..] == s[from + 1..];
      SkipDelimiters(s, from + 1);
    }
  }

  lemma TokenAt(s: string, from: nat)
    requires from < |s| && !IsDelimiter(s[from])
    ensures from < FindFirstOf(s, from) <= |s|
    ensures Tokens(s[from..]) == [s[from..FindFirstOf(s, from)]] + Tokens(s[FindFirstOf(s, from)..])
  {
    var n := FindFirstOf(s, from);
    var m := FindFirstOf(s[from..], 0);
    assert m == n - from by {
      assert m < |s| - from ==> IsDelimiter(s[from..][m]);
      assert n < |s| ==> IsDelimiter(s[from..][n - from]);
    }
    assert s[from..][..m] == s[from..n] && s[from..][m..] == s[n..];
  }

  lemma TokensOfWord(w: string, rest: string)
    requires IsWord(w)
    ensures Tokens(w + " " + rest) == [w] + Tokens(rest)
  {
    var s := w + " " + rest;
    var n := FindFirstOf(s, 0);
    assert s[|w|] == ' ';
    assert forall i :: 0 <= i < |w| ==> s[i] == w[i];
    assert n == |w|;
    assert s[..n] == w && s[n..][0] == ' ' && s[n..][1..] == rest;
  }

  lemma TokensOfLastWord(w: string)
    requires IsWord(w)
    ensures Tokens(w) == [w]
  {
    assert FindFirstOf(w, 0) == |w|;
    assert w[..|w|] == w && w[|w|..] == "";
  }

  lemma {:induction false} TokensHaveNoDelimiter(s: string)
    ensures forall t :: t in Tokens(s) ==> t != "" && forall i :: 0 <= i < |t| ==> !IsDelimiter(t[i])
    decreases |s|
  {
    if s != "" {
      if IsDelimiter(s[0]) {
        TokensHaveNoDelimiter(s[1..]);
      } else {
        TokensHaveNoDelimiter(s[FindFirstOf(s, 0)..]);
      }
    }
  }

  // --------------------------------------------------------------------- lines

  /** What getline delivers until the end of the file. */
  function Lines(s: string): (r: seq<string>)
    ensures r != []
    decreases |s|
  {
    var n := IndexOf(s, '\n');
    if n == |s| then [s] else [s[..n]] + Lines(s[n + 1..])
  }

  lemma LinesOfLine(l: string, rest: string)
    requires '\n' !in l
    ensures Lines(l + "\n" + rest) == [l] + Lines(rest)
  {
    var s := l + "\n" + rest;
    assert s[|l|] == '\n';
    assert forall i :: 0 <= i < |l| ==> s[i] == l[i] && l[i] in l;
    assert IndexOf(s, '\n') == |l|;
    assert s[..|l|] == l && s[|l| + 1..] == rest;
  }

  // ------------------------------------------------------------------- numbers

  function Digit(d: nat): char
    requires d < 10
  {
    ('0' as int + d) as char
  }

  function DigitValue(c: char): nat {
    if '0' <= c <= '9' then c as int - '0' as int else 0
  }

  function PrintNat(n: nat): string {
    if n < 10 then [Digit(n)] else PrintNat(n / 10) + [Digit(n % 10)]
  }

  predicate IsNumber(s: string) {
    s != "" && forall i :: 0 <= i < |s| ==> '0' <= s[i] <= '9'
  }

  /** The value of a digit string; other texts are a bad conversion. */
  function ReadNat(s: string): Option<nat> {
    if IsNumber(s) then Some(NatValue(s)) else None
  }

  function NatValue(s: string): nat {
    if s == "" then 0 else 10 * NatValue(s[..|s| - 1]) + DigitValue(s[|s| - 1])
  }

  lemma {:induction false} NatRoundTrip(n: nat)
    ensures ReadNat(PrintNat(n)) == Some(n) && IsWord(PrintNat(n))
  {
    if n >= 10 {
      NatRoundTrip(n / 10);
      NatAppend(PrintNat(n / 10), n % 10);
    } else {
      NatAppend("", n);
      assert "" + [Digit(n)] == PrintNat(n);
    }
  }

  lemma DigitRoundTrip(d: nat)
    requires d < 10
    ensures '0' <= Digit(d) <= '9' && DigitValue(Digit(d)) == d && !IsSpace(Digit(d))
  {
  }

  lemma NatAppend(s: string, d: nat)
    requires (s == "" || (IsNumber(s) && IsWord(s))) && d < 10
    ensures var t := s + [Digit(d)];
      IsNumber(t) && IsWord(t) && NatValue(t) == 10 * NatValue(s) + d
  {
    DigitRoundTrip(d);
    var c := Digit(d);
    hide Digit, DigitValue, IsSpace;
    var t := s + [c];
    assert t[..|t| - 1] == s && t[|t| - 1] == c;
  }
}
