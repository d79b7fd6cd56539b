/**
 * The JavaScript array operations the dashboard is built from: `filter` with an
 * element predicate, `filter` on positions (delete), and copy-then-assign at an
 * index (edit), together with what they guarantee.
 */
module ArrayOps {

  /** `s.filter(p)`: the elements of `s` that satisfy `p`, in their original order. */
  function Keep<T>(s: seq<T>, p: T -> bool): (r: seq<T>)
    ensures |r| <= |s|
    ensures forall x :: x in r ==> x in s && p(x)
  {
    if s == [] then [] else (if p(s[0]) then [s[0]] else []) + Keep(s[1..], p)
  }

  /** `r` can be obtained from `s` by deleting elements, without reordering the rest. */
  ghost predicate IsSubsequence<T>(r: seq<T>, s: seq<T>)
    decreases |s|
  {
    r == [] || (s != [] && ((r[0] == s[0] && IsSubsequence(r[1..], s[1..])) || IsSubsequence(r, s[1..])))
  }

  /** The positions of `s` whose element satisfies `p`. */
  function Positions<T>(s: seq<T>, p: T -> bool): set<int>
  {
    set i | 0 <= i < |s| && p(s[i])
  }

  lemma {:induction false} KeepConcat<T>(a: seq<T>, b: seq<T>, p: T -> bool)
    ensures Keep(a + b, p) == Keep(a, p) + Keep(b, p)
  {
    if a == [] {
      assert a + b == b;
    } else {
      assert (a + b)[0] == a[0];
      assert (a + b)[1..] == a[1..] + b;
      KeepConcat(a[1..], b, p);
    }
  }

  /** Filtering keeps everything when every element passes. */
  lemma {:induction false} KeepAll<T>(s: seq<T>, p: T -> bool)
    requires forall i :: 0 <= i < |s| ==> p(s[i])
    ensures Keep(s, p) == s
  {
    if s != [] {
      KeepAll(s[1..], p);
    }
  }

  /** Filtering is stable: the result is an order-preserving subsequence of the input. */
  lemma {:induction false} KeepIsSubsequence<T>(s: seq<T>, p: T -> bool)
    ensures IsSubsequence(Keep(s, p), s)
  {
    if s != [] {
      KeepIsSubsequence(s[1..], p);
      var r := Keep(s, p);
      if p(s[0]) {
        assert r[0] == s[0] && r[1..] == Keep(s[1..], p);
      } else {
        assert r == Keep(s[1..], p);
      }
    }
  }

  /** Filtering keeps every occurrence of a passing value and none of a failing one. */
  lemma {:induction false} KeepMultiplicity<T>(s: seq<T>, p: T -> bool, x: T)
    ensures multiset(Keep(s, p))[x] == if p(x) then multiset(s)[x] else 0
  {
    if s != [] {
      KeepMultiplicity(s[1..], p, x);
      assert s == [s[0]] + s[1..];
      assert multiset(s) == multiset([s[0]]) + multiset(s[1..]);
      var head := if p(s[0]) then [s[0]] else [];
      assert multiset(Keep(s, p)) == multiset(head) + multiset(Keep(s[1..], p));
    }
  }

  /** Filtering twice is filtering once by the conjunction of the two predicates. */
  lemma {:induction false} KeepKeep<T>(s: seq<T>, p: T -> bool, q: T -> bool, pq: T -> bool)
    requires forall x :: pq(x) == (p(x) && q(x))
    ensures Keep(Keep(s, p), q) == Keep(s, pq)
  {
    if s != [] {
      var head := if p(s[0]) then [s[0]] else [];
      KeepConcat(head, Keep(s[1..], p), q);
      KeepKeep(s[1..], p, q, pq);
    }
  }

  /** A stronger predicate keeps a subsequence of what a weaker one keeps. */
  lemma {:induction false} KeepMonotone<T>(s: seq<T>, p: T -> bool, q: T -> bool)
    requires forall x :: p(x) ==> q(x)
    ensures IsSubsequence(Keep(s, p), Keep(s, q))
    ensures |Keep(s, p)| <= |Keep(s, q)|
  {
    KeepKeep(s, q, p, p);
    KeepIsSubsequence(Keep(s, q), p);
  }

  /** The length of a filter is the number of positions whose element passes. */
  lemma {:induction false} KeepCountsPositions<T>(s: seq<T>, p: T -> bool)
    ensures |Keep(s, p)| == |Positions(s, p)|
    decreases |s|
  {
    if s == [] {
      assert Positions(s, p) == {};
    } else {
      var t, x := s[..|s| - 1], s[|s| - 1];
      assert s == t + [x];
      KeepConcat(t, [x], p);
      KeepCountsPositions(t, p);
      var extra: set<int> := if p(x) then {|t|} else {};
      assert Positions(s, p) == Positions(t, p) + extra by {
        forall i | 0 <= i < |t| ensures s[i] == t[i] { }
      }
      assert |t| !in Positions(t, p);
    }
  }

  /**
   * `s.filter((_, i) => i !== index)`: drops the element at position `index`, if
   * there is one. Defined element by element, from the back.
   */
  function RemovePosition<T>(s: seq<T>, index: int): (r: seq<T>)
    ensures |r| == if 0 <= index < |s| then |s| - 1 else |s|
    ensures forall x :: x in r ==> x in s
    decreases |s|
  {
    if s == [] then []
    else RemovePosition(s[..|s| - 1], index) + (if |s| - 1 == index then [] else [s[|s| - 1]])
  }

  /** Deleting a position in range closes the gap; any other index changes nothing. */
  lemma {:induction false} RemovePositionSpec<T>(s: seq<T>, index: int)
    ensures 0 <= index < |s| ==> RemovePosition(s, index) == s[..index] + s[index + 1..]
    ensures !(0 <= index < |s|) ==> RemovePosition(s, index) == s
    decreases |s|
  {
    if s != [] {
      var t, x := s[..|s| - 1], s[|s| - 1];
      assert s == t + [x];
      RemovePositionSpec(t, index);
      if 0 <= index < |t| {
        assert s[..index] == t[..index];
        assert s[index + 1..] == t[index + 1..] + [x];
      }
    }
  }

  /** Deleting a position in range removes exactly that element from every filter of the array. */
  lemma {:induction false} KeepAfterRemovePosition<T>(s: seq<T>, index: int, p: T -> bool)
    requires 0 <= index < |s|
    ensures |Keep(RemovePosition(s, index), p)| + (if p(s[index]) then 1 else 0) == |Keep(s, p)|
  {
    RemovePositionSpec(s, index);
    var a, x, b := s[..index], s[index], s[index + 1..];
    assert s == (a + [x]) + b;
    assert [x][1..] == [];
    assert |Keep([x], p)| == if p(x) then 1 else 0;
    KeepConcat(a + [x], b, p);
    KeepConcat(a, [x], p);
    KeepConcat(a, b, p);
  }

  /**
   * `const updated = [...s]; updated[index] = x;` for an index at most one past the
   * end: inside the array it overwrites that one element, at `|s|` it appends.
   */
  function WriteAt<T>(s: seq<T>, index: nat, x: T): (r: seq<T>)
    requires index <= |s|
    ensures |r| == if index < |s| then |s| else |s| + 1
    ensures r[index] == x
    ensures forall j :: 0 <= j < |s| && j != index ==> r[j] == s[j]
  {
    if index < |s| then s[index := x] else s + [x]
  }
}
