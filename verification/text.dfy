/** The two string operations the search box relies on: `toLowerCase` and
    `includes`. Lower-casing is modelled on ASCII letters only. */
module Text {

  predicate IsUpper(c: char) {
    'A' <= c <= 'Z'
  }

  /** ASCII lower-casing of one character. */
  function LowerChar(c: char): (d: char)
    ensures !IsUpper(d)
    ensures !IsUpper(c) ==> d == c
    ensures IsUpper(c) ==> 'a' <= d <= 'z' && d as int - c as int == 'a' as int - 'A' as int
  {
    if IsUpper(c) then (c as int + ('a' as int - 'A' as int)) as char else c
  }

  /** `s.toLowerCase()`: same length, every upper-case letter replaced by
      its lower-case partner, every other character kept in place. */
  function Lower(s: string): (r: string)
    ensures |r| == |s|
    ensures forall i :: 0 <= i < |s| ==> r[i] == LowerChar(s[i])
    ensures forall i :: 0 <= i < |r| ==> !IsUpper(r[i])
    ensures forall i :: 0 <= i < |s| && !IsUpper(s[i]) ==> r[i] == s[i]
  {
    seq(|s|, i requires 0 <= i < |s| => LowerChar(s[i]))
  }

  /** Lower-casing twice is lower-casing once. */
  lemma LowerIdempotent(s: string)
    ensures Lower(Lower(s)) == Lower(s)
  {
  }

  /** Two characters that are equal or are the upper- and lower-case forms
      of one ASCII letter. */
  predicate SameLetter(c: char, d: char) {
    || c == d
    || (IsUpper(c) && d as int == c as int + ('a' as int - 'A' as int))
    || (IsUpper(d) && c as int == d as int + ('a' as int - 'A' as int))
  }

  /** Strings that differ only in the ASCII case of their letters lower-case
      to the same string. */
  lemma LowerIgnoresCase(s: string, t: string)
    requires |s| == |t|
    requires forall i :: 0 <= i < |s| ==> SameLetter(s[i], t[i])
    ensures Lower(s) == Lower(t)
  {
  }

  /** `t` occurs in `s` starting at position `i`. */
  predicate OccursAt(s: string, t: string, i: int) {
    0 <= i && i + |t| <= |s| && s[i..i + |t|] == t
  }

  /** `s.includes(t)`: `t` occurs somewhere in `s`. */
  predicate Contains(s: string, t: string) {
    exists i | 0 <= i <= |s| - |t| :: OccursAt(s, t, i)
  }

  /** The empty string occurs in every string, and every string in itself. */
  lemma ContainsTrivial(s: string)
    ensures Contains(s, [])
    ensures Contains(s, s)
  {
    assert OccursAt(s, [], 0);
    assert OccursAt(s, s, 0);
  }

  /** Occurrence is transitive: a string containing `t` contains everything
      `t` contains. */
  lemma ContainsTransitive(s: string, t: string, w: string)
    requires Contains(s, t) && Contains(t, w)
    ensures Contains(s, w)
  {
    var i :| 0 <= i <= |s| - |t| && OccursAt(s, t, i);
    var j :| 0 <= j <= |t| - |w| && OccursAt(t, w, j);
    var inS, inT := s[i + j..i + j + |w|], t[j..j + |w|];
    forall k | 0 <= k < |w|
      ensures inS[k] == inT[k]
    {
      assert s[i + j + k] == s[i..i + |t|][j + k];
    }
    assert inS == inT;
    assert OccursAt(s, w, i + j);
  }

  /** The scan `includes` performs: try every start position in turn. */
  method Includes(s: string, t: string) returns (found: bool)
    ensures found <==> Contains(s, t)
  {
    var i := 0;
    while i + |t| <= |s|
      invariant 0 <= i
      invariant forall j :: 0 <= j < i ==> !OccursAt(s, t, j)
      decreases |s| - i
    {
      if s[i..i + |t|] == t {
        assert OccursAt(s, t, i);
        return true;
      }
      i := i + 1;
    }
    return false;
  }
}
