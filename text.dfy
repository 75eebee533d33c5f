/**
 * The string tests the feature extractor applies to a URL and to its
 * domain parts: Python's substring test `pat in s`, the non-overlapping
 * occurrence count `s.count(pat)`, and the digit test behind
 * `any(ch.isdigit() for ch in s)`.
 */
module Text {

  /** `pat` occurs in `s` as a contiguous block starting at index `i`. */
  predicate OccursAt(s: string, pat: string, i: int)
  {
    0 <= i && i + |pat| <= |s| && s[i..i + |pat|] == pat
  }

  /** Python's `pat in s`: try every start position from the left. */
  function Contains(s: string, pat: string): (r: bool)
    ensures |pat| == 0 ==> r
    ensures r ==> |pat| <= |s|
    ensures |pat| == |s| ==> (r <==> s == pat)
    decreases |s|
  {
    if |s| < |pat| then false
    else if s[..|pat|] == pat then true
    else Contains(s[1..], pat)
  }

  /**
   * Python's `s.count(pat)`: scan from the left and, after each match,
   * resume just past it, so occurrences never overlap. An empty pattern
   * matches at each of the |s| + 1 positions.
   */
  function Count(s: string, pat: string): (n: nat)
    ensures |pat| > 0 ==> n * |pat| <= |s|
    decreases |s|
  {
    if |pat| == 0 then |s| + 1
    else if |s| < |pat| then 0
    else if s[..|pat|] == pat then 1 + Count(s[|pat|..], pat)
    else Count(s[1..], pat)
  }

  /** ASCII digit; Python's `str.isdigit` also accepts other Unicode digits. */
  predicate IsDigit(c: char)
  {
    '0' <= c <= '9'
  }

  /** `any(ch.isdigit() for ch in s)`: true exactly when some character is a digit. */
  function AnyDigit(s: string): (r: bool)
    ensures r <==> exists i :: 0 <= i < |s| && IsDigit(s[i])
  {
    if s == [] then false
    else
      assert forall k :: 0 <= k < |s| - 1 ==> s[1..][k] == s[k + 1];
      IsDigit(s[0]) || AnyDigit(s[1..])
  }

  /** An occurrence at i > 0 in s is an occurrence at i - 1 in s[1..], and back. */
  lemma OccursAtShift(s: string, pat: string, i: int)
    requires |s| > 0 && i > 0
    ensures OccursAt(s, pat, i) <==> OccursAt(s[1..], pat, i - 1)
  {
    if i + |pat| <= |s| {
      assert s[1..][i - 1..i - 1 + |pat|] == s[i..i + |pat|];
    }
  }

  /** An occurrence at k in s[m..] is an occurrence at k + m in s, and back. */
  lemma OccursAtDrop(s: string, pat: string, m: nat, k: int)
    requires m <= |s| && k >= 0
    ensures OccursAt(s[m..], pat, k) <==> OccursAt(s, pat, k + m)
  {
    if k + m + |pat| <= |s| {
      assert s[m..][k..k + |pat|] == s[k + m..k + m + |pat|];
    }
  }

  /** `pat in s` holds exactly when `pat` occurs somewhere in `s`. */
  lemma {:induction false} ContainsIffOccurs(s: string, pat: string)
    ensures Contains(s, pat) <==> exists i :: OccursAt(s, pat, i)
    decreases |s|
  {
    if |s| < |pat| {
    } else if s[..|pat|] == pat {
      assert OccursAt(s, pat, 0);
    } else {
      ContainsIffOccurs(s[1..], pat);
      if exists i :: OccursAt(s, pat, i) {
        var i :| OccursAt(s, pat, i);
        assert i != 0;
        OccursAtShift(s, pat, i);
      }
      if exists k :: OccursAt(s[1..], pat, k) {
        var k :| OccursAt(s[1..], pat, k);
        OccursAtShift(s, pat, k + 1);
      }
    }
  }

  /** For a one-character pattern, containment is sequence membership. */
  lemma ContainsCharIffMember(s: string, c: char)
    ensures Contains(s, [c]) <==> c in s
  {
    ContainsIffOccurs(s, [c]);
    if c in s {
      var i :| 0 <= i < |s| && s[i] == c;
      assert s[i..i + 1] == [c];
      assert OccursAt(s, [c], i);
    }
    if Contains(s, [c]) {
      var i :| OccursAt(s, [c], i);
      assert s[i] == s[i..i + 1][0];
    }
  }

  /** A non-empty pattern is counted at least once exactly when it is contained. */
  lemma {:induction false} CountPositiveIffContains(s: string, pat: string)
    requires |pat| > 0
    ensures Count(s, pat) >= 1 <==> Contains(s, pat)
    decreases |s|
  {
    if |s| < |pat| {
    } else if s[..|pat|] == pat {
    } else {
      CountPositiveIffContains(s[1..], pat);
    }
  }

  /** `s` holds two occurrences of `pat` that do not overlap. */
  ghost predicate TwoApart(s: string, pat: string)
  {
    exists i, j :: i + |pat| <= j && OccursAt(s, pat, i) && OccursAt(s, pat, j)
  }

  /** When `s` starts with `pat`, a second occurrence is one in the rest. */
  lemma TwoApartAfterMatch(s: string, pat: string)
    requires |pat| <= |s| && s[..|pat|] == pat
    ensures TwoApart(s, pat) <==> exists k :: OccursAt(s[|pat|..], pat, k)
  {
    var rest := s[|pat|..];
    assert OccursAt(s, pat, 0);
    if exists k :: OccursAt(rest, pat, k) {
      var k :| OccursAt(rest, pat, k);
      OccursAtDrop(s, pat, |pat|, k);
    }
    if TwoApart(s, pat) {
      var i, j :| i + |pat| <= j && OccursAt(s, pat, i) && OccursAt(s, pat, j);
      OccursAtDrop(s, pat, |pat|, j - |pat|);
    }
  }

  /** When `s` does not start with `pat`, dropping its first character keeps both occurrences. */
  lemma TwoApartAfterMiss(s: string, pat: string)
    requires 0 < |pat| <= |s| && s[..|pat|] != pat
    ensures TwoApart(s, pat) <==> TwoApart(s[1..], pat)
  {
    var tail := s[1..];
    if TwoApart(tail, pat) {
      var i, j :| i + |pat| <= j && OccursAt(tail, pat, i) && OccursAt(tail, pat, j);
      OccursAtShift(s, pat, i + 1);
      OccursAtShift(s, pat, j + 1);
    }
    if TwoApart(s, pat) {
      var i, j :| i + |pat| <= j && OccursAt(s, pat, i) && OccursAt(s, pat, j);
      assert i != 0;
      OccursAtShift(s, pat, i);
      OccursAtShift(s, pat, j);
    }
  }

  /**
   * The left-to-right count of a non-empty pattern reaches two exactly
   * when the string holds two occurrences that do not overlap.
   */
  lemma {:induction false} CountAtLeastTwoIff(s: string, pat: string)
    requires |pat| > 0
    ensures Count(s, pat) >= 2 <==> TwoApart(s, pat)
    decreases |s|
  {
    if |s| < |pat| {
    } else if s[..|pat|] == pat {
      CountPositiveIffContains(s[|pat|..], pat);
      ContainsIffOccurs(s[|pat|..], pat);
      TwoApartAfterMatch(s, pat);
    } else {
      CountAtLeastTwoIff(s[1..], pat);
      TwoApartAfterMiss(s, pat);
    }
  }

  /** Python counts "//" in "///" once: the match at 0 consumes the second slash. */
  lemma TripleSlashCountsOnce()
    ensures Count("///", "//") == 1
  {
    assert "///"[..2] == "//";
    assert "///"[2..] == "/";
  }
}
