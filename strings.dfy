/**
 * The two JavaScript string operations the search box relies on,
 * `toLowerCase` (restricted to ASCII letters) and `includes`.
 */
module Strings {

  /** `toLowerCase` on one character: maps `A`..`Z` to `a`..`z` and leaves the rest alone. */
  function LowerChar(c: char): (d: char)
    ensures !('A' <= d <= 'Z')
    ensures 'A' <= c <= 'Z' ==> d as int - 'a' as int == c as int - 'A' as int
    ensures !('A' <= c <= 'Z') ==> d == c
  {
    if 'A' <= c <= 'Z' then (c as int - 'A' as int + 'a' as int) as char else c
  }

  /** `s.toLowerCase()`, character by character. */
  function ToLower(s: string): (r: string)
    ensures |r| == |s|
    ensures forall i :: 0 <= i < |s| ==> r[i] == LowerChar(s[i])
  {
    if s == [] then [] else [LowerChar(s[0])] + ToLower(s[1..])
  }

  /** Lowering an already lowered string changes nothing. */
  lemma ToLowerIdempotent(s: string)
    ensures ToLower(ToLower(s)) == ToLower(s)
  {
  }

  /** `needle` occurs in `hay` starting at position `k`. */
  predicate OccursAt(hay: string, needle: string, k: int)
  {
    0 <= k && k + |needle| <= |hay| && hay[k..k + |needle|] == needle
  }

  /** `needle` occurs somewhere in `hay`. */
  ghost predicate ContainsText(hay: string, needle: string)
  {
    exists k :: OccursAt(hay, needle, k)
  }

  /** Occurrences in `hay[1..]` are the occurrences in `hay` after position 0. */
  lemma {:induction false} OccursShift(hay: string, needle: string)
    requires hay != []
    ensures forall k :: OccursAt(hay[1..], needle, k) <==> 0 <= k && OccursAt(hay, needle, k + 1)
  {
    forall k
      ensures OccursAt(hay[1..], needle, k) <==> 0 <= k && OccursAt(hay, needle, k + 1)
    {
      if 0 <= k && k + |needle| <= |hay| - 1 {
        assert hay[1..][k..k + |needle|] == hay[k + 1..k + 1 + |needle|];
      }
    }
  }

  /** `hay.includes(needle)`: whether `needle` occurs somewhere in `hay`. */
  function Includes(hay: string, needle: string): (b: bool)
    ensures b <==> ContainsText(hay, needle)
    decreases |hay|
  {
    if |needle| > |hay| then false
    else if hay[..|needle|] == needle then assert OccursAt(hay, needle, 0); true
    else
      OccursShift(hay, needle);
      assert !OccursAt(hay, needle, 0);
      var b := Includes(hay[1..], needle);
      assert b ==> exists k :: OccursAt(hay, needle, k) by {
        if b {
          var k :| OccursAt(hay[1..], needle, k);
          assert OccursAt(hay, needle, k + 1);
        }
      }
      assert (exists k :: OccursAt(hay, needle, k)) ==> b by {
        if exists k :: OccursAt(hay, needle, k) {
          var k :| OccursAt(hay, needle, k);
          assert k != 0;
          assert OccursAt(hay[1..], needle, k - 1);
        }
      }
      b
  }

  /** The empty string occurs in every string. */
  lemma {:induction false} IncludesEmpty(hay: string)
    ensures Includes(hay, "")
  {
    assert OccursAt(hay, "", 0);
  }
}
