/** The two things every reader of text here does: find a character, and trim. */
module Text {
  /** Where `c` first stands in `s`, or the end of `s` if it does not. */
  function FirstOf(s: string, c: char): (i: nat)
    ensures i <= |s| && c !in s[..i] && (i < |s| ==> s[i] == c)
  {
    if s == [] || s[0] == c then 0 else 1 + FirstOf(s[1..], c)
  }

  function TrimStart(space: char -> bool, s: string): (t: string)
    ensures t != [] ==> !space(t[0])
  {
    if s != [] && space(s[0]) then TrimStart(space, s[1..]) else s
  }

  function TrimEnd(space: char -> bool, s: string): (t: string)
    ensures t <= s && (t != [] ==> !space(t[|t| - 1]))
    ensures s == t || (|t| < |s| && space(s[|t|]))
  {
    if s != [] && space(s[|s| - 1]) then TrimEnd(space, s[..|s| - 1]) else s
  }

  function Trim(space: char -> bool, s: string): (t: string)
    ensures t != [] ==> !space(t[|t| - 1])
  {
    TrimEnd(space, TrimStart(space, s))
  }

  /** Nothing but blanks. */
  predicate Blank(space: char -> bool, s: string) {
    forall i | 0 <= i < |s| :: space(s[i])
  }

  lemma {:induction false} StartIsTrimmed(space: char -> bool, before: string, s: string)
    requires Blank(space, before) && (s != [] ==> !space(s[0]))
    ensures TrimStart(space, before + s) == s
  {
    if before == [] {
      assert before + s == s;
    } else {
      assert (before + s)[1..] == before[1..] + s;
      StartIsTrimmed(space, before[1..], s);
    }
  }

  lemma {:induction false} EndIsTrimmed(space: char -> bool, s: string, after: string)
    requires Blank(space, after) && (s != [] ==> !space(s[|s| - 1]))
    ensures TrimEnd(space, s + after) == s
    decreases |after|
  {
    if after == [] {
      assert s + after == s;
    } else {
      var n := |after| - 1;
      assert (s + after)[..|s| + n] == s + after[..n];
      EndIsTrimmed(space, s, after[..n]);
    }
  }

  /** The blanks around a text go, and nothing else. */
  lemma {:induction false} TrimMeaning(space: char -> bool, before: string, s: string, after: string)
    requires Blank(space, before) && Blank(space, after)
    requires s != [] ==> !space(s[0]) && !space(s[|s| - 1])
    ensures Trim(space, before + s + after) == s
  {
    if s == [] {
      StartIsTrimmed(space, before + after, []);
      assert before + s + after == before + after + [];
    } else {
      assert before + s + after == before + (s + after);
      StartIsTrimmed(space, before, s + after);
      EndIsTrimmed(space, s, after);
    }
  }
}
