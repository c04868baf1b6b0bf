/**
 * The string operations the postcode criterion uses: ASCII lower-casing
 * (`toLowerCase`) and substring search (`includes`).
 */
module Text {

  predicate IsUpper(c: char) {
    'A' <= c <= 'Z'
  }

  function LowerChar(c: char): (r: char)
    ensures !IsUpper(r)
    ensures IsUpper(c) ==> 'a' <= r <= 'z' && r as int == c as int + 32
    ensures !IsUpper(c) ==> r == c
  {
    if IsUpper(c) then (c as int + 32) as char else c
  }

  /** ASCII lower-casing, character by character. */
  function Lower(s: string): (r: string)
    ensures |r| == |s|
    ensures forall i :: 0 <= i < |s| ==> r[i] == LowerChar(s[i])
    ensures forall i :: 0 <= i < |r| ==> !IsUpper(r[i])
  {
    seq(|s|, i requires 0 <= i < |s| => LowerChar(s[i]))
  }

  /** Lower-casing twice is lower-casing once. */
  lemma LowerIdempotent(s: string)
    ensures Lower(Lower(s)) == Lower(s)
  {
    var l := Lower(s);
    assert forall i :: 0 <= i < |l| ==> Lower(l)[i] == LowerChar(l[i]) == l[i];
  }

  /** `a` and `b` are the same text up to ASCII case: each letter may be upper or lower case in either. */
  predicate SameUpToCase(a: string, b: string) {
    |a| == |b| &&
    forall i :: 0 <= i < |a| ==>
      a[i] == b[i] ||
      (IsUpper(a[i]) && b[i] as int == a[i] as int + 32) ||
      (IsUpper(b[i]) && a[i] as int == b[i] as int + 32)
  }

  /** Texts equal up to case lower-case to the same text, so the postcode criterion ignores case. */
  lemma LowerIgnoresCase(a: string, b: string)
    requires SameUpToCase(a, b)
    ensures Lower(a) == Lower(b)
  {
    forall i | 0 <= i < |a|
      ensures Lower(a)[i] == Lower(b)[i]
    {
      assert LowerChar(a[i]) == LowerChar(b[i]);
    }
  }

  /** Lower-casing changes only upper-case letters, so a text and its lower-case form are equal up to case. */
  lemma LowerSameUpToCase(s: string)
    ensures SameUpToCase(s, Lower(s))
  {
  }

  /** `needle` occurs in `hay` starting at position `i`. */
  ghost predicate OccursAt(hay: string, needle: string, i: int) {
    0 <= i && i + |needle| <= |hay| && hay[i..i + |needle|] == needle
  }

  predicate StartsWith(s: string, prefix: string) {
    |prefix| <= |s| && s[..|prefix|] == prefix
  }

  /** `String.prototype.includes`: a scan over every start position. */
  predicate Contains(hay: string, needle: string)
    decreases |hay|
  {
    StartsWith(hay, needle) || (hay != [] && Contains(hay[1..], needle))
  }

  /** The scan finds `needle` exactly when it occurs somewhere in `hay`. */
  lemma {:induction false} ContainsIff(hay: string, needle: string)
    ensures Contains(hay, needle) <==> exists i :: OccursAt(hay, needle, i)
  {
    if StartsWith(hay, needle) {
      assert OccursAt(hay, needle, 0);
    } else if hay != [] {
      var tail := hay[1..];
      ContainsIff(tail, needle);
      forall i | OccursAt(tail, needle, i)
        ensures OccursAt(hay, needle, i + 1)
      {
        assert hay[i + 1..i + 1 + |needle|] == tail[i..i + |needle|];
      }
      forall i | OccursAt(hay, needle, i)
        ensures OccursAt(tail, needle, i - 1)
      {
        assert i != 0;
        assert hay[i..i + |needle|] == tail[i - 1..i - 1 + |needle|];
      }
    } else {
      assert |needle| > 0;
    }
  }

  /** An occurrence inside an occurrence is an occurrence. */
  lemma OccursTrans(hay: string, mid: string, needle: string, i: int, j: int)
    requires OccursAt(hay, mid, i) && OccursAt(mid, needle, j)
    ensures OccursAt(hay, needle, i + j)
  {
    forall k | 0 <= k < |needle|
      ensures hay[i + j + k] == needle[k]
    {
      assert hay[i..i + |mid|][j + k] == mid[j + k];
      assert mid[j..j + |needle|][k] == needle[k];
    }
    assert hay[i + j..i + j + |needle|] == needle;
  }
}
