/** The page arithmetic shared by the roster and the per-assignment student
    lists: `Math.ceil(total / size)` pages, page `p` being
    `slice((p - 1) * size, p * size)`. */
module Paging {
  import opened Lists

  /** `Math.ceil(total / pageSize)`: the least page count whose pages hold `total` items. */
  function PageCount(total: int, pageSize: nat): (r: int)
    requires pageSize > 0
    ensures (r - 1) * pageSize < total <= r * pageSize
    ensures total >= 0 ==> r >= 0 && (r == 0 <==> total == 0)
  {
    var q := (-total) / pageSize;
    assert -total == q * pageSize + (-total) % pageSize;
    -q
  }

  /** The items shown on page `page`. */
  function PageOf<T>(s: seq<T>, page: int, pageSize: nat): seq<T>
    requires pageSize > 0
  {
    Slice(s, (page - 1) * pageSize, page * pageSize)
  }

  lemma MulMono(a: int, b: int, c: nat)
    requires a <= b
    ensures a * c <= b * c
  {
  }

  /** A page from 1 on holds at most `pageSize` consecutive items starting at
      `(page - 1) * pageSize`, and is full unless it is the last. */
  lemma PageWindow<T>(s: seq<T>, page: int, pageSize: nat)
    requires pageSize > 0 && page >= 1
    ensures var p, start := PageOf(s, page, pageSize), (page - 1) * pageSize;
      && |p| <= pageSize
      && (forall k :: 0 <= k < |p| ==> p[k] == s[start + k])
      && (start + pageSize <= |s| ==> |p| == pageSize)
      && (start < |s| < start + pageSize ==> |p| == |s| - start)
      && (start >= |s| ==> p == [])
  {
    var start := (page - 1) * pageSize;
    MulMono(0, page - 1, pageSize);
    assert page * pageSize == start + pageSize;
    SliceFrom(s, start, page * pageSize);
  }

  /** The first page is the first `min(pageSize, |s|)` items. */
  lemma FirstPage<T>(s: seq<T>, pageSize: nat)
    requires pageSize > 0
    ensures PageOf(s, 1, pageSize) == s[..if pageSize < |s| then pageSize else |s|]
  {
  }

  /** A page past the last page is empty. */
  lemma PageBeyondEnd<T>(s: seq<T>, page: int, pageSize: nat)
    requires pageSize > 0 && page > PageCount(|s|, pageSize)
    ensures PageOf(s, page, pageSize) == []
  {
    var n := PageCount(|s|, pageSize);
    MulMono(n, page - 1, pageSize);
    PageWindow(s, page, pageSize);
  }

  /** Every page from 1 to the page count holds at least one item. */
  lemma PageInRangeNonEmpty<T>(s: seq<T>, page: int, pageSize: nat)
    requires pageSize > 0 && 1 <= page <= PageCount(|s|, pageSize)
    ensures PageOf(s, page, pageSize) != []
  {
    MulMono(page - 1, PageCount(|s|, pageSize) - 1, pageSize);
    PageWindow(s, page, pageSize);
    var start := (page - 1) * pageSize;
    if start + pageSize > |s| {
      assert |PageOf(s, page, pageSize)| == |s| - start;
    }
  }

  /** Pages `1..k` laid end to end. */
  function Pages<T>(s: seq<T>, pageSize: nat, k: nat): seq<T>
    requires pageSize > 0
  {
    if k == 0 then [] else Pages(s, pageSize, k - 1) + PageOf(s, k, pageSize)
  }

  lemma {:induction false} PagesPrefix<T>(s: seq<T>, pageSize: nat, k: nat)
    requires pageSize > 0
    ensures Pages(s, pageSize, k) == s[..if k * pageSize < |s| then k * pageSize else |s|]
  {
    if k > 0 {
      PagesPrefix(s, pageSize, k - 1);
      var start, end := (k - 1) * pageSize, k * pageSize;
      MulMono(0, k - 1, pageSize);
      assert start <= end;
      SliceClamped(s, start, end);
      var lo := if start < |s| then start else |s|;
      var hi := if end < |s| then end else |s|;
      assert s[..lo] + s[lo..hi] == s[..hi];
    }
  }

  /** Concatenating the pages `1..PageCount` gives back the whole list. */
  lemma {:induction false} PagesCoverAll<T>(s: seq<T>, pageSize: nat)
    requires pageSize > 0
    ensures Pages(s, pageSize, PageCount(|s|, pageSize)) == s
  {
    PagesPrefix(s, pageSize, PageCount(|s|, pageSize));
  }
}
