/**
 * Searching a document. The search dialog of 2.9.3 and 2.9.6 lists one result per
 * match, page by page, and walks a cursor over them that moves the page view; version
 * 2.5.0 instead jumps to the next page holding the text, wrapping around to the start.
 *
 * Page texts and fitz's per-page match counts are inputs: `pages[p]` is the text of
 * page p, `hits[p]` the number of rectangles `search_for` returned on page p.
 */
module Search {
  import opened Text
  import opened Paging

  /** k copies of page p, the results one page contributes. */
  function Copies(p: int, k: nat): (r: seq<int>)
    ensures |r| == k && forall i | 0 <= i < k :: r[i] == p
  {
    if k == 0 then [] else Copies(p, k - 1) + [p]
  }

  /** The result pages perform_search collects from the first n pages: each page once per match, in page order. */
  function Results(hits: seq<nat>, n: nat): seq<int>
    requires n <= |hits|
  {
    if n == 0 then [] else Results(hits, n - 1) + Copies(n - 1, hits[n - 1])
  }

  /** Result pages never decrease, and each is a page with at least one match. */
  predicate Ordered(r: seq<int>) {
    forall i, j | 0 <= i < j < |r| :: r[i] <= r[j]
  }

  /** The results are in page order and every result is one of the first n pages. */
  lemma {:induction false} ResultsOrdered(hits: seq<nat>, n: nat)
    requires n <= |hits|
    ensures Ordered(Results(hits, n))
    ensures forall i | 0 <= i < |Results(hits, n)| :: 0 <= Results(hits, n)[i] < n
  {
    if n > 0 {
      ResultsOrdered(hits, n - 1);
      var a, c := Results(hits, n - 1), Copies(n - 1, hits[n - 1]);
      assert Results(hits, n) == a + c;
      forall i, j | 0 <= i < j < |a + c| ensures (a + c)[i] <= (a + c)[j] {
        if j < |a| {
          assert (a + c)[i] == a[i] && (a + c)[j] == a[j];
        } else if i < |a| {
          assert (a + c)[i] == a[i] && (a + c)[j] == c[j - |a|];
        }
      }
    }
  }

  /** Every page appears among the results exactly as many times as it has matches, and nothing else appears. */
  lemma ResultsCount(hits: seq<nat>, n: nat)
    requires n <= |hits|
    ensures forall p | 0 <= p < n :: multiset(Results(hits, n))[p] == hits[p]
    ensures forall x | x < 0 || x >= n :: multiset(Results(hits, n))[x] == 0
  {
    forall x ensures multiset(Results(hits, n))[x] == if 0 <= x < n then hits[x] else 0 {
      ResultsCountAt(hits, n, x);
    }
  }

  /** How often one page occurs among the results of the first n pages. */
  lemma ResultsCountAt(hits: seq<nat>, n: nat, x: int)
    requires n <= |hits|
    ensures multiset(Results(hits, n))[x] == if 0 <= x < n then hits[x] else 0
  {
    CountIsMultiplicity(Results(hits, n), x);
    ResultsOccur(hits, n, x);
  }

  /** How often x occurs in r, counted from the end. */
  function Occurrences(r: seq<int>, x: int): (c: nat)
    ensures c <= |r|
  {
    if r == [] then 0 else Occurrences(r[..|r| - 1], x) + (if r[|r| - 1] == x then 1 else 0)
  }

  lemma {:induction false} CountIsMultiplicity(r: seq<int>, x: int)
    ensures multiset(r)[x] == Occurrences(r, x)
  {
    if r != [] {
      var init := r[..|r| - 1];
      CountIsMultiplicity(init, x);
      assert r == init + [r[|r| - 1]];
      assert multiset(r) == multiset(init) + multiset{r[|r| - 1]};
    }
  }

  lemma {:induction false} OccurrencesAppend(a: seq<int>, c: seq<int>, x: int)
    ensures Occurrences(a + c, x) == Occurrences(a, x) + Occurrences(c, x)
  {
    if c != [] {
      OccurrencesAppend(a, c[..|c| - 1], x);
      assert (a + c)[..|a + c| - 1] == a + c[..|c| - 1];
    } else {
      assert a + c == a;
    }
  }

  lemma {:induction false} CopiesOccur(p: int, k: nat, x: int)
    ensures Occurrences(Copies(p, k), x) == if x == p then k else 0
  {
    if k > 0 {
      CopiesOccur(p, k - 1, x);
      assert Copies(p, k)[..k - 1] == Copies(p, k - 1);
    }
  }

  lemma {:induction false} ResultsOccur(hits: seq<nat>, n: nat, x: int)
    requires n <= |hits|
    ensures Occurrences(Results(hits, n), x) == if 0 <= x < n then hits[x] else 0
  {
    if n > 0 {
      ResultsOccur(hits, n - 1, x);
      CopiesOccur(n - 1, hits[n - 1], x);
      OccurrencesAppend(Results(hits, n - 1), Copies(n - 1, hits[n - 1]), x);
    }
  }

  /** A page is among the results exactly when fitz found the text on it. */
  lemma ResultPagesAreMatches(hits: seq<nat>, p: int)
    requires 0 <= p < |hits|
    ensures p in Results(hits, |hits|) <==> hits[p] > 0
  {
    ResultsCount(hits, |hits|);
  }

  /**
   * The search dialog: its results (the page of each match) and the row of the current
   * one, -1 before the first search; `parent` is the main window's page view.
   */
  class SearchDialog {
    const parent: Viewer
    var results: seq<int>
    var currentResult: int

    /** The cursor is on a result whenever there are results, and every result is a page of the open document. */
    predicate Valid()
      reads this, parent
    {
      && parent.Valid()
      && (forall i | 0 <= i < |results| :: 0 <= results[i] < parent.pageCount)
      && (results != [] ==> 0 <= currentResult < |results|)
    }

    constructor(v: Viewer)
      requires v.Valid()
      ensures Valid() && parent == v && results == [] && currentResult == -1
    {
      parent := v;
      results := [];
      currentResult := -1;
    }

    /** highlight_current_result: show the current result's page. */
    method Highlight()
      requires Valid() && results != []
      modifies parent
      ensures Valid()
      ensures parent.currentPageNum == results[currentResult]
      ensures parent.pageCount == old(parent.pageCount) && parent.rotationAngle == old(parent.rotationAngle)
      ensures parent.zoomPercent == old(parent.zoomPercent)
    {
      parent.currentPageNum := results[currentResult];
    }

    /**
     * perform_search with the stripped query; `hits` is what fitz found on each page.
     * An empty query or no document changes nothing; otherwise the results are
     * replaced, and when there are some the cursor and the view go to the first.
     */
    method PerformSearch(query: string, hits: seq<nat>)
      requires Valid() && |hits| == parent.pageCount
      modifies this, parent
      ensures Valid()
      ensures Strip(query) == [] || parent.pageCount == 0 ==>
        results == old(results) && currentResult == old(currentResult) && parent.currentPageNum == old(parent.currentPageNum)
      ensures Strip(query) != [] && parent.pageCount > 0 ==> results == Results(hits, |hits|)
      ensures Strip(query) != [] && parent.pageCount > 0 && results != [] ==>
        currentResult == 0 && parent.currentPageNum == results[0]
      ensures Strip(query) != [] && results == [] ==>
        currentResult == old(currentResult) && parent.currentPageNum == old(parent.currentPageNum)
      ensures parent.pageCount == old(parent.pageCount) && parent.rotationAngle == old(parent.rotationAngle)
      ensures parent.zoomPercent == old(parent.zoomPercent)
    {
      if Strip(query) == [] || parent.pageCount == 0 {
        return;
      }
      var found := CollectResults(hits);
      ResultsOrdered(hits, |hits|);
      results := found;
      if results != [] {
        currentResult := 0;
        Highlight();
      }
    }

    /** prev_result: one result back, unless at the first. */
    method PrevResult()
      requires Valid()
      modifies this, parent
      ensures Valid() && results == old(results)
      ensures currentResult == PrevIndex(old(currentResult), |results|)
      ensures parent.currentPageNum == if currentResult != old(currentResult) then results[currentResult] else old(parent.currentPageNum)
      ensures parent.pageCount == old(parent.pageCount) && parent.rotationAngle == old(parent.rotationAngle)
      ensures parent.zoomPercent == old(parent.zoomPercent)
    {
      if results != [] && currentResult > 0 {
        currentResult := currentResult - 1;
        Highlight();
      }
    }

    /** next_result: one result on, unless at the last. */
    method NextResult()
      requires Valid()
      modifies this, parent
      ensures Valid() && results == old(results)
      ensures currentResult == NextIndex(old(currentResult), |results|)
      ensures parent.currentPageNum == if currentResult != old(currentResult) then results[currentResult] else old(parent.currentPageNum)
      ensures parent.pageCount == old(parent.pageCount) && parent.rotationAngle == old(parent.rotationAngle)
      ensures parent.zoomPercent == old(parent.zoomPercent)
    {
      if results != [] && currentResult < |results| - 1 {
        currentResult := currentResult + 1;
        Highlight();
      }
    }

    /** go_to_result: a double-clicked row that is a result becomes the current one; other rows are ignored. */
    method GoToResult(row: int)
      requires Valid()
      modifies this, parent
      ensures Valid() && results == old(results)
      ensures currentResult == GotoIndex(old(currentResult), row, |results|)
      ensures parent.currentPageNum == if 0 <= row < |results| then results[row] else old(parent.currentPageNum)
      ensures parent.pageCount == old(parent.pageCount) && parent.rotationAngle == old(parent.rotationAngle)
      ensures parent.zoomPercent == old(parent.zoomPercent)
    {
      if 0 <= row < |results| {
        currentResult := row;
        Highlight();
      }
    }

    /**
     * open_file of 2.9.6 with the dialog open: a document that opens resets the view
     * and empties the dialog's results, so no result points into the old document.
     */
    method ParentOpensFile(outcome: Option<nat>)
      requires Valid()
      modifies this, parent
      ensures Valid()
      ensures outcome.Some? ==> results == [] && parent.pageCount == outcome.value && parent.currentPageNum == 0
      ensures outcome.None? ==>
        (results == old(results) && parent.pageCount == old(parent.pageCount) && parent.currentPageNum == old(parent.currentPageNum))
      ensures currentResult == old(currentResult)
    {
      parent.OpenFile(outcome);
      if outcome.Some? {
        results := [];
      }
    }
  }

  /** The loop of perform_search: for each page, one result per match. */
  method CollectResults(hits: seq<nat>) returns (found: seq<int>)
    ensures found == Results(hits, |hits|)
  {
    found := [];
    var p := 0;
    while p < |hits|
      invariant 0 <= p <= |hits|
      invariant found == Results(hits, p)
    {
      var k := 0;
      while k < hits[p]
        invariant 0 <= k <= hits[p]
        invariant found == Results(hits, p) + Copies(p, k)
      {
        found := found + [p];
        k := k + 1;
      }
      p := p + 1;
    }
  }

  /** The cursor of a non-empty result list stays on a result, whatever is pressed. */
  lemma CursorStaysOnResults(cur: int, row: int, n: nat)
    requires n > 0 && 0 <= cur < n
    ensures 0 <= PrevIndex(cur, n) < n && 0 <= NextIndex(cur, n) < n && 0 <= GotoIndex(cur, row, n) < n
    ensures cur < n - 1 ==> PrevIndex(NextIndex(cur, n), n) == cur
    ensures NextIndex(cur, n) == cur <==> cur == n - 1
  {
    NavigationStaysInRange(cur, row, n);
    NextPrevInverse(cur, n);
  }

  // ---------------------------------------------------------------- 2.5.0 search_text

  /** The text occurs on page p, compared in lower case on both sides. */
  predicate Hit(pages: seq<string>, query: string, p: int)
    requires 0 <= p < |pages|
  {
    Contains(Lower(pages[p]), Lower(query))
  }

  /** The first page of [lo, hi) on which the text occurs. */
  function FirstHit(pages: seq<string>, query: string, lo: int, hi: int): (r: Option<int>)
    requires 0 <= lo && hi <= |pages|
    ensures r.Some? ==> lo <= r.value < hi && Hit(pages, query, r.value)
    ensures r.Some? ==> forall j | lo <= j < r.value :: !Hit(pages, query, j)
    ensures r.None? ==> forall j | lo <= j < hi :: !Hit(pages, query, j)
    decreases hi - lo
  {
    if lo >= hi then None
    else if Hit(pages, query, lo) then Some(lo)
    else FirstHit(pages, query, lo + 1, hi)
  }

  /** The page search_text moves to: the first hit from the current page on, else from the first page, else the current page. */
  function WrapSearch(pages: seq<string>, query: string, start: int): int
    requires 0 <= start <= |pages|
  {
    match FirstHit(pages, query, start, |pages|)
    case Some(p) => p
    case None =>
      match FirstHit(pages, query, 0, start)
      case Some(p) => p
      case None => start
  }

  /** How far page p lies after the start page, going forward and wrapping around at the end. */
  function Distance(start: int, p: int, n: int): int
    requires n > 0
  {
    (p - start) % n
  }

  /**
   * search_text lands on a page holding the text whenever one exists, and on the
   * nearest one going forward from the current page and wrapping around; when no page
   * holds it, the view stays where it was.
   */
  lemma WrapSearchFindsNearest(pages: seq<string>, query: string, start: int)
    requires 0 <= start < |pages|
    ensures 0 <= WrapSearch(pages, query, start) < |pages|
    ensures (exists p | 0 <= p < |pages| :: Hit(pages, query, p)) <==> Hit(pages, query, WrapSearch(pages, query, start))
    ensures !Hit(pages, query, WrapSearch(pages, query, start)) ==> WrapSearch(pages, query, start) == start
    ensures forall p | 0 <= p < |pages| && Hit(pages, query, p) ::
      Distance(start, WrapSearch(pages, query, start), |pages|) <= Distance(start, p, |pages|)
  {
    var n := |pages|;
    var r := WrapSearch(pages, query, start);
    forall p | 0 <= p < n && Hit(pages, query, p)
      ensures Distance(start, r, n) <= Distance(start, p, n)
    {
      DistanceForm(start, p, n);
      DistanceForm(start, r, n);
    }
  }

  /** Distance without the modulus: forward pages count up from 0, wrapped ones continue after the last. */
  lemma DistanceForm(start: int, p: int, n: int)
    requires 0 <= start < n && 0 <= p < n
    ensures Distance(start, p, n) == if p >= start then p - start else p - start + n
  {
    if p < start {
      assert p - start == -1 * n + (p - start + n);
    } else {
      assert p - start == 0 * n + (p - start);
    }
  }

  /** search_text of 2.5.0 over the page view `v`; an empty query or no document changes nothing. */
  method SearchText(v: Viewer, query: string, pages: seq<string>)
    requires v.Valid() && |pages| == v.pageCount
    modifies v
    ensures v.Valid()
    ensures v.pageCount == old(v.pageCount) && v.rotationAngle == old(v.rotationAngle) && v.zoomPercent == old(v.zoomPercent)
    ensures query == [] || v.pageCount == 0 ==> v.currentPageNum == old(v.currentPageNum)
    ensures query != [] && v.pageCount > 0 ==>
      old(PageInRange(v.currentPageNum, v.pageCount)) && v.currentPageNum == WrapSearch(pages, query, old(v.currentPageNum))
  {
    if v.pageCount == 0 || query == [] {
      return;
    }
    var start := v.currentPageNum;
    var p := start;
    while p < |pages|
      invariant start <= p <= |pages|
      invariant FirstHit(pages, query, start, |pages|) == FirstHit(pages, query, p, |pages|)
      invariant v.currentPageNum == start
    {
      if Contains(Lower(pages[p]), Lower(query)) {
        v.currentPageNum := p;
        return;
      }
      p := p + 1;
    }
    p := 0;
    while p < start
      invariant 0 <= p <= start
      invariant FirstHit(pages, query, 0, start) == FirstHit(pages, query, p, start)
      invariant v.currentPageNum == start
    {
      if Contains(Lower(pages[p]), Lower(query)) {
        v.currentPageNum := p;
        return;
      }
      p := p + 1;
    }
  }
}
