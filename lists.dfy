/** The array operations the portal's views are built from (`filter`, `find`,
    `findIndex`, `slice`, `new Set`), as functions on sequences. */
module Lists {
  import opened Types

  /** `Array.prototype.filter`: the elements satisfying `p`, in their original order. */
  function Filter<T(!new)>(p: T -> bool, s: seq<T>): (r: seq<T>)
    ensures |r| <= |s|
    ensures forall x :: x in r <==> x in s && p(x)
  {
    if s == [] then [] else (if p(s[0]) then [s[0]] else []) + Filter(p, s[1..])
  }

  /** Filtering distributes over concatenation, so it keeps the original order. */
  lemma {:induction false} FilterAppend<T(!new)>(p: T -> bool, a: seq<T>, b: seq<T>)
    ensures Filter(p, a + b) == Filter(p, a) + Filter(p, b)
  {
    if a == [] {
      assert a + b == b;
    } else {
      assert (a + b)[1..] == a[1..] + b;
      FilterAppend(p, a[1..], b);
    }
  }

  /** A filter that every element passes is the identity. */
  lemma {:induction false} FilterAll<T(!new)>(p: T -> bool, s: seq<T>)
    requires forall x :: x in s ==> p(x)
    ensures Filter(p, s) == s
  {
    if s != [] {
      FilterAll(p, s[1..]);
    }
  }

  /** A filter that no element passes is empty. */
  lemma {:induction false} FilterNone<T(!new)>(p: T -> bool, s: seq<T>)
    requires forall x :: x in s ==> !p(x)
    ensures Filter(p, s) == []
  {
    if s != [] {
      FilterNone(p, s[1..]);
    }
  }

  /** Two predicates that agree on the elements give the same filter. */
  lemma {:induction false} FilterCongruent<T(!new)>(p: T -> bool, q: T -> bool, s: seq<T>)
    requires forall x :: x in s ==> p(x) == q(x)
    ensures Filter(p, s) == Filter(q, s)
  {
    if s != [] {
      FilterCongruent(p, q, s[1..]);
    }
  }

  /** Replacing one element by another that `p` judges alike keeps the number kept. */
  lemma {:induction false} FilterLengthUpdate<T(!new)>(p: T -> bool, s: seq<T>, i: nat, x: T)
    requires i < |s| && p(x) == p(s[i])
    ensures |Filter(p, s[i := x])| == |Filter(p, s)|
  {
    if i > 0 {
      assert s[i := x][1..] == s[1..][i - 1 := x];
      FilterLengthUpdate(p, s[1..], i - 1, x);
    } else {
      assert s[i := x][1..] == s[1..];
    }
  }

  /** `s.map(y => p(y) ? x : y)`: every element `p` picks replaced by `x`. */
  function MapReplace<T>(s: seq<T>, p: T -> bool, x: T): (r: seq<T>)
    ensures |r| == |s|
    ensures forall i :: 0 <= i < |s| ==> r[i] == if p(s[i]) then x else s[i]
  {
    if s == [] then [] else [if p(s[0]) then x else s[0]] + MapReplace(s[1..], p, x)
  }

  /** `findIndex` as an option: the first position whose element satisfies `p`. */
  function FirstIndex<T>(p: T -> bool, s: seq<T>): (r: Option<nat>)
    ensures r.Some? ==> r.value < |s| && p(s[r.value]) && forall j :: 0 <= j < r.value ==> !p(s[j])
    ensures r.None? ==> forall j :: 0 <= j < |s| ==> !p(s[j])
  {
    if s == [] then None
    else if p(s[0]) then Some(0)
    else match FirstIndex(p, s[1..])
      case None => None
      case Some(i) => Some(i + 1)
  }

  /** Overwriting the first match with another matching element keeps it the first match. */
  lemma FirstIndexAfterUpdate<T>(p: T -> bool, s: seq<T>, i: nat, x: T)
    requires FirstIndex(p, s) == Some(i) && p(x)
    ensures FirstIndex(p, s[i := x]) == Some(i)
  {
    var t := s[i := x];
    assert p(t[i]);
    assert forall j :: 0 <= j < i ==> t[j] == s[j] && !p(t[j]);
  }

  /** `find`: the first element satisfying `p`, if any. */
  function Find<T(!new)>(p: T -> bool, s: seq<T>): (r: Option<T>)
    ensures r.None? <==> forall x :: x in s ==> !p(x)
    ensures r.Some? ==> r.value in s && p(r.value)
    ensures r.Some? ==> exists i :: 0 <= i < |s| && s[i] == r.value && forall j :: 0 <= j < i ==> !p(s[j])
  {
    match FirstIndex(p, s)
    case None => None
    case Some(i) => Some(s[i])
  }

  /** Where `slice` puts a bound: a negative bound counts from the end, and
      bounds are clamped to `[0, n]`. */
  function SliceBound(i: int, n: nat): (k: nat)
    ensures k <= n
    ensures 0 <= i <= n ==> k == i
    ensures i > n ==> k == n
  {
    if i < 0 then (if n + i < 0 then 0 else n + i) else if i > n then n else i
  }

  /** `Array.prototype.slice(start, end)`. */
  function Slice<T>(s: seq<T>, start: int, end: int): (r: seq<T>)
    ensures |r| <= |s|
  {
    var a, b := SliceBound(start, |s|), SliceBound(end, |s|);
    if a < b then s[a..b] else []
  }

  /** With a non-negative start, `slice` returns the consecutive elements from
      `start` up to `end` or the end of the sequence, whichever comes first. */
  lemma SliceFrom<T>(s: seq<T>, start: int, end: int)
    requires 0 <= start <= end
    ensures var stop := if end < |s| then end else |s|;
            |Slice(s, start, end)| == (if start < stop then stop - start else 0)
    ensures forall k :: 0 <= k < |Slice(s, start, end)| ==> Slice(s, start, end)[k] == s[start + k]
  {
  }

  /** With `0 <= start <= end`, `slice` is the sub-sequence between the two
      bounds, each clamped to the length. */
  lemma SliceClamped<T>(s: seq<T>, start: int, end: int)
    requires 0 <= start <= end
    ensures var lo, hi := (if start < |s| then start else |s|), (if end < |s| then end else |s|);
            Slice(s, start, end) == s[lo..hi]
  {
  }

  predicate NoDuplicates<T(==)>(s: seq<T>) {
    forall i, j :: 0 <= i < j < |s| ==> s[i] != s[j]
  }

  /** Filtering a list without duplicates leaves none. */
  lemma {:induction false} FilterNoDuplicates<T(!new)>(p: T -> bool, s: seq<T>)
    requires NoDuplicates(s)
    ensures NoDuplicates(Filter(p, s))
  {
    if s != [] {
      assert NoDuplicates(s[1..]) by {
        forall i, j | 0 <= i < j < |s[1..]| ensures s[1..][i] != s[1..][j] {
          assert s[1..][i] == s[i + 1] && s[1..][j] == s[j + 1];
        }
      }
      FilterNoDuplicates(p, s[1..]);
      var rest := Filter(p, s[1..]);
      forall k | 0 <= k < |s[1..]| ensures s[1..][k] != s[0] {
        assert s[1..][k] == s[k + 1];
      }
      var r := (if p(s[0]) then [s[0]] else []) + rest;
      forall i, j | 0 <= i < j < |r| ensures r[i] != r[j] {
        if p(s[0]) {
          assert r[j] == rest[j - 1];
          if i > 0 {
            assert r[i] == rest[i - 1];
          }
        }
      }
    }
  }

  /** The position of the first occurrence of `x` in `s`. */
  function FirstPos<T(==)>(s: seq<T>, x: T): (k: nat)
    requires x in s
    ensures k < |s| && s[k] == x && x !in s[..k]
  {
    if s[0] == x then 0
    else
      var k := FirstPos(s[1..], x);
      assert s[..k + 1] == [s[0]] + s[1..][..k];
      k + 1
  }

  /** Appending elements does not move the first occurrence of an element already present. */
  lemma {:induction false} FirstPosExtend<T>(s: seq<T>, t: seq<T>, x: T)
    requires x in s
    ensures FirstPos(s + t, x) == FirstPos(s, x)
  {
    if s[0] != x {
      assert (s + t)[1..] == s[1..] + t;
      FirstPosExtend(s[1..], t, x);
    }
  }

  /** `[...new Set(s)]`: the distinct elements of `s` in first-occurrence order. */
  function Distinct<T(==,!new)>(s: seq<T>): (r: seq<T>)
    ensures forall x :: x in r <==> x in s
    ensures NoDuplicates(r)
  {
    if s == [] then []
    else
      var init, last := s[..|s| - 1], s[|s| - 1];
      assert s == init + [last];
      var d := Distinct(init);
      if last in init then d else d + [last]
  }

  /** The distinct elements appear in the order of their first occurrences in `s`. */
  lemma {:induction false} DistinctFirstOccurrenceOrder<T(!new)>(s: seq<T>)
    ensures forall i, j :: 0 <= i < j < |Distinct(s)| ==>
      FirstPos(s, Distinct(s)[i]) < FirstPos(s, Distinct(s)[j])
  {
    if s != [] {
      var init, last := s[..|s| - 1], s[|s| - 1];
      assert s == init + [last];
      DistinctFirstOccurrenceOrder(init);
      var d, r := Distinct(init), Distinct(s);
      forall i, j | 0 <= i < j < |r|
        ensures FirstPos(s, r[i]) < FirstPos(s, r[j])
      {
        assert r[i] in init;
        FirstPosExtend(init, [last], r[i]);
        if j < |d| {
          FirstPosExtend(init, [last], r[j]);
        } else {
          assert r[j] == last && last !in init;
          assert s[..|init|] == init;
        }
      }
    }
  }
}
