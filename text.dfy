/** Character and string operations behind the case-insensitive search:
    lower-casing (`str.lower()`) and substring containment (`q in s`). */
module Text {

  /** An ASCII capital letter. */
  predicate IsUpper(c: char) {
    'A' <= c <= 'Z'
  }

  /** Lower-cases one character: ASCII capitals map to their small letter,
      every other character is left as it is. */
  function LowerChar(c: char): (r: char)
    ensures !IsUpper(r)
    ensures IsUpper(c) ==> r as int == c as int + 32
    ensures !IsUpper(c) ==> r == c
  {
    if IsUpper(c) then (c as int + 32) as char else c
  }

  /** `s.lower()`: lower-cases every character, position by position. */
  function Lower(s: string): (r: string)
    ensures |r| == |s|
    ensures forall i :: 0 <= i < |s| ==> r[i] == LowerChar(s[i])
  {
    seq(|s|, i requires 0 <= i < |s| => LowerChar(s[i]))
  }

  /** Two strings that differ at most in the letter case of their characters. */
  predicate EqualIgnoringCase(a: string, b: string) {
    |a| == |b| && forall i :: 0 <= i < |a| ==> LowerChar(a[i]) == LowerChar(b[i])
  }

  /** `q` occurs in `s` starting at position `i`. */
  ghost predicate OccursAt(s: string, q: string, i: int) {
    0 <= i && i + |q| <= |s| && s[i..i + |q|] == q
  }

  /** Python's `q in s` on strings: `q` is a contiguous substring of `s`
      (the empty string is a substring of every string). */
  function Contains(s: string, q: string): (r: bool)
    ensures r <==> exists i :: OccursAt(s, q, i)
    decreases |s|
  {
    if |q| > |s| then
      false
    else if s[..|q|] == q then
      assert OccursAt(s, q, 0);
      true
    else
      ShiftOccurrence(s, q);
      |s| > 0 && Contains(s[1..], q)
  }

  /** Occurrences in `s` other than at 0 are exactly the occurrences in `s[1..]`, shifted by one. */
  lemma ShiftOccurrence(s: string, q: string)
    requires |q| <= |s| && s[..|q|] != q
    ensures (exists i :: OccursAt(s, q, i)) <==> |s| > 0 && exists j :: OccursAt(s[1..], q, j)
  {
    if i :| OccursAt(s, q, i) {
      assert i != 0;
      assert s[1..][i - 1..i - 1 + |q|] == s[i..i + |q|];
      assert OccursAt(s[1..], q, i - 1);
    }
    if |s| > 0 && exists j :: OccursAt(s[1..], q, j) {
      var j :| OccursAt(s[1..], q, j);
      assert s[1..][j..j + |q|] == s[j + 1..j + 1 + |q|];
      assert OccursAt(s, q, j + 1);
    }
  }

  /** Lower-casing commutes with taking a slice. */
  lemma LowerSlice(s: string, i: int, j: int)
    requires 0 <= i <= j <= |s|
    ensures Lower(s[i..j]) == Lower(s)[i..j]
  {
  }

  /** Lower-casing twice is lower-casing once. */
  lemma LowerIdempotent(s: string)
    ensures Lower(Lower(s)) == Lower(s)
  {
  }

  /** Strings that differ only in letter case have the same lower-cased form,
      and a string and its lower-cased form differ only in letter case. */
  lemma EqualIgnoringCaseLower(a: string, b: string)
    ensures EqualIgnoringCase(a, b) <==> Lower(a) == Lower(b)
    ensures EqualIgnoringCase(a, Lower(a))
  {
    if Lower(a) == Lower(b) {
      forall i | 0 <= i < |a| ensures LowerChar(a[i]) == LowerChar(b[i]) {
        assert Lower(a)[i] == Lower(b)[i];
      }
    }
  }

  /** An exact-case occurrence is also an occurrence once both sides are lower-cased. */
  lemma ContainsLower(s: string, q: string)
    requires Contains(s, q)
    ensures Contains(Lower(s), Lower(q))
  {
    var i :| OccursAt(s, q, i);
    LowerSlice(s, i, i + |q|);
    assert OccursAt(Lower(s), Lower(q), i);
  }

  /** The empty string is contained in every string. */
  lemma ContainsEmpty(s: string)
    ensures Contains(s, "")
  {
    assert OccursAt(s, "", 0);
  }

  /** Nothing but the empty string is contained in the empty string. */
  lemma ContainedInEmpty(q: string)
    ensures Contains("", q) <==> q == ""
  {
    if q == "" {
      ContainsEmpty("");
    }
  }

  /** No character of `s` lower-cases to `c`. */
  predicate Lacks(s: string, c: char) {
    forall k :: 0 <= k < |s| ==> LowerChar(s[k]) != c
  }

  /** No two adjacent characters of `s` lower-case to `a` followed by `b`. */
  predicate LacksPair(s: string, a: char, b: char) {
    forall k :: 0 <= k < |s| - 1 ==> !(LowerChar(s[k]) == a && LowerChar(s[k + 1]) == b)
  }

  /** A query holding a letter that the lower-cased field lacks does not occur in it. */
  lemma AbsentLetter(s: string, q: string, i: nat)
    requires i < |q| && Lacks(s, LowerChar(q[i]))
    ensures !Contains(Lower(s), Lower(q))
  {
    forall p | 0 <= p && p + |q| <= |s| ensures !OccursAt(Lower(s), Lower(q), p) {
      assert Lower(s)[p..p + |q|][i] == LowerChar(s[p + i]);
    }
  }

  /** A query holding two adjacent letters that never stand side by side in the
      lower-cased field does not occur in it. */
  lemma AbsentPair(s: string, q: string, i: nat)
    requires i + 1 < |q| && LacksPair(s, LowerChar(q[i]), LowerChar(q[i + 1]))
    ensures !Contains(Lower(s), Lower(q))
  {
    forall p | 0 <= p && p + |q| <= |s| ensures !OccursAt(Lower(s), Lower(q), p) {
      assert Lower(s)[p..p + |q|][i] == LowerChar(s[p + i]);
      assert Lower(s)[p..p + |q|][i + 1] == LowerChar(s[p + i + 1]);
    }
  }
}
