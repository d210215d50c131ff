/** Python's `str.replace` on column names. */
module Text {

  /**
   * `s.replace(pat, rep)`: scanning left to right, every non-overlapping
   * occurrence of `pat` becomes `rep`. The handlers only ever pass a
   * non-empty pattern.
   */
  function ReplaceAll(s: string, pat: string, rep: string): string
    requires |pat| > 0
    decreases |s|
  {
    if |s| < |pat| then s
    else if s[..|pat|] == pat then rep + ReplaceAll(s[|pat|..], pat, rep)
    else [s[0]] + ReplaceAll(s[1..], pat, rep)
  }

  /** `pat` stands in `s` at position `i`. */
  predicate MatchAt(pat: string, s: string, i: int) {
    0 <= i && i + |pat| <= |s| && s[i..i + |pat|] == pat
  }

  /** `pat in s` for strings. */
  predicate Occurs(pat: string, s: string) {
    exists i :: 0 <= i <= |s| && MatchAt(pat, s, i)
  }

  /** A string without the pattern is left as it is. */
  lemma {:induction false} ReplaceAbsent(s: string, pat: string, rep: string)
    requires |pat| > 0 && !Occurs(pat, s)
    ensures ReplaceAll(s, pat, rep) == s
    decreases |s|
  {
    if |s| >= |pat| {
      assert !MatchAt(pat, s, 0);
      assert s[0..|pat|] == s[..|pat|];
      assert !Occurs(pat, s[1..]) by {
        forall i | MatchAt(pat, s[1..], i)
          ensures false
        {
          assert s[1..][i..i + |pat|] == s[i + 1..i + 1 + |pat|];
          assert MatchAt(pat, s, i + 1);
        }
      }
      ReplaceAbsent(s[1..], pat, rep);
      assert s == [s[0]] + s[1..];
    }
  }

  /** A character in neither the string nor the replacement is not in the result. */
  lemma {:induction false} ReplaceKeepsAbsent(s: string, pat: string, rep: string, c: char)
    requires |pat| > 0 && c !in s && c !in rep
    ensures c !in ReplaceAll(s, pat, rep)
    decreases |s|
  {
    if |s| >= |pat| {
      if s[..|pat|] == pat {
        assert forall i :: 0 <= i < |s[|pat|..]| ==> s[|pat|..][i] == s[|pat| + i];
        ReplaceKeepsAbsent(s[|pat|..], pat, rep, c);
      } else {
        assert forall i :: 0 <= i < |s[1..]| ==> s[1..][i] == s[1 + i];
        ReplaceKeepsAbsent(s[1..], pat, rep, c);
      }
    }
  }

  /** Replacing one character by another maps the string character by character. */
  lemma {:induction false} ReplaceChar(s: string, c: char, d: char)
    ensures |ReplaceAll(s, [c], [d])| == |s|
    ensures forall i :: 0 <= i < |s| ==>
      ReplaceAll(s, [c], [d])[i] == if s[i] == c then d else s[i]
    decreases |s|
  {
    if |s| != 0 {
      ReplaceChar(s[1..], c, d);
      assert s[..1] == [s[0]];
    }
  }

  /** After `.replace(c, d)` with `d != c` no `c` is left. */
  lemma ReplaceCharRemoves(s: string, c: char, d: char)
    requires c != d
    ensures c !in ReplaceAll(s, [c], [d])
  {
    ReplaceChar(s, c, d);
    var r := ReplaceAll(s, [c], [d]);
    assert forall i :: 0 <= i < |r| ==> r[i] != c;
  }
}
