/** Searching for a character in a text. */
module Strings {

  /** The first place of c; the length if it is absent. */
  function IndexOf(s: string, c: char): (i: nat)
    ensures i <= |s|
    ensures i < |s| ==> s[i] == c
    ensures forall j :: 0 <= j < i ==> s[j] != c
  {
    if s == "" || s[0] == c then 0 else 1 + IndexOf(s[1..], c)
  }

  lemma IndexOfIs(s: string, c: char, n: nat)
    requires n <= |s| && (n < |s| ==> s[n] == c) && forall j :: 0 <= j < n ==> s[j] != c
    ensures IndexOf(s, c) == n
  {
    hide IndexOf;
    if IndexOf(s, c) < n {
      assert false;
    }
  }

  lemma {:induction false} IndexOfAppend(s: string, c: char, t: string)
    ensures IndexOf(s + t, c) == if c in s then IndexOf(s, c) else |s| + IndexOf(t, c)
  {
    if s == "" {
      assert s + t == t;
    } else {
      assert (s + t)[1..] == s[1..] + t;
      if s[0] != c {
        IndexOfAppend(s[1..], c, t);
        assert c in s <==> c in s[1..];
      }
    }
  }

  lemma IndexOfAt(s: string, c: char, rest: string)
    requires c !in s
    ensures IndexOf(s + [c] + rest, c) == |s|
  {
    IndexOfAppend(s, c, [c] + rest);
    assert s + [c] + rest == s + ([c] + rest);
  }

  lemma IndexOfAbsent(s: string, c: char)
    requires c !in s
    ensures IndexOf(s, c) == |s|
  {
    assert forall i :: 0 <= i < |s| ==> s[i] in s;
  }
}
