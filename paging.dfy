/**
 * Page navigation and rotation of the PDF viewer window, common to every version of
 * the reader: the page index moves by one only inside the document, a goto accepts
 * only an index of an existing page, and the rotation angle is kept modulo 360.
 *
 * A fitz document without pages is falsy in Python, so "no document" and "a document
 * of zero pages" behave alike; both are `pageCount == 0` here.
 */
module Paging {
  import opened Text

  /** `(angle + delta) % 360`; Python's `%` with a positive modulus is never negative. */
  function Rotate(angle: int, delta: int): (r: int)
    ensures 0 <= r < 360
    ensures (angle + delta - r) % 360 == 0
  {
    (angle + delta) % 360
  }

  /** next_page: `if document and cur < page_count - 1: cur += 1`. */
  function NextIndex(cur: int, pageCount: nat): int {
    if pageCount > 0 && cur < pageCount - 1 then cur + 1 else cur
  }

  /** prev_page: `if document and cur > 0: cur -= 1`. */
  function PrevIndex(cur: int, pageCount: nat): int {
    if pageCount > 0 && cur > 0 then cur - 1 else cur
  }

  /** goto_page: `if document and 0 <= target < page_count: cur = target`. */
  function GotoIndex(cur: int, target: int, pageCount: nat): int {
    if pageCount > 0 && 0 <= target < pageCount then target else cur
  }

  /** The viewer's page index is a valid page of the open document. */
  predicate PageInRange(cur: int, pageCount: nat) {
    pageCount == 0 || 0 <= cur < pageCount
  }

  /** Next, previous and goto never leave the document, and goto lands on its target exactly when it is a page. */
  lemma NavigationStaysInRange(cur: int, target: int, pageCount: nat)
    requires PageInRange(cur, pageCount)
    ensures PageInRange(NextIndex(cur, pageCount), pageCount)
    ensures PageInRange(PrevIndex(cur, pageCount), pageCount)
    ensures PageInRange(GotoIndex(cur, target, pageCount), pageCount)
    ensures GotoIndex(cur, target, pageCount) == target <==> (0 <= target < pageCount || target == cur)
  {
  }

  /** Previous undoes next, and next undoes previous, wherever the first step moved. */
  lemma NextPrevInverse(cur: int, pageCount: nat)
    requires 0 <= cur < pageCount
    ensures cur < pageCount - 1 ==> PrevIndex(NextIndex(cur, pageCount), pageCount) == cur
    ensures cur > 0 ==> NextIndex(PrevIndex(cur, pageCount), pageCount) == cur
    ensures cur == pageCount - 1 <==> NextIndex(cur, pageCount) == cur
    ensures cur == 0 <==> PrevIndex(cur, pageCount) == cur
  {
  }

  /** The page reached by pressing "next" k times. */
  function NextPagesFrom(cur: int, pageCount: nat, k: nat): int
    decreases k
  {
    if k == 0 then cur else NextPagesFrom(NextIndex(cur, pageCount), pageCount, k - 1)
  }

  /** Pressing "next" k times advances k pages, but never past the last page. */
  lemma {:induction false} NextPagesSaturate(cur: int, pageCount: nat, k: nat)
    requires 0 <= cur < pageCount
    ensures NextPagesFrom(cur, pageCount, k) == if cur + k < pageCount then cur + k else pageCount - 1
    decreases k
  {
    if k > 0 {
      NextPagesSaturate(NextIndex(cur, pageCount), pageCount, k - 1);
    }
  }

  /** A right angle in either direction keeps the angle one of 0, 90, 180, 270. */
  lemma RotateKeepsQuarterTurns(angle: int, delta: int)
    requires angle % 90 == 0 && delta % 90 == 0
    ensures Rotate(angle, delta) in {0, 90, 180, 270}
  {
    var r := Rotate(angle, delta);
    assert (angle + delta) % 90 == 0;
    assert r % 90 == 0;
  }

  /** One rotation by at most a full turn from a normalised angle wraps at most once. */
  lemma RotateWrapsOnce(angle: int, delta: int)
    requires 0 <= angle < 360 && -360 <= delta <= 360
    ensures Rotate(angle, delta) ==
      if angle + delta < 0 then angle + delta + 360
      else if angle + delta >= 360 then angle + delta - 360
      else angle + delta
  {
    var x := angle + delta;
    if x < 0 {
      assert x + 360 == x % 360 by { assert x == -1 * 360 + (x + 360); }
    } else if x >= 360 {
      assert x - 360 == x % 360 by { assert x == 1 * 360 + (x - 360); }
    }
  }

  /** Left and right rotations by 90 degrees undo each other. */
  lemma RotateLeftRightInverse(angle: int)
    requires 0 <= angle < 360
    ensures Rotate(Rotate(angle, 90), -90) == angle
    ensures Rotate(Rotate(angle, -90), 90) == angle
  {
    RotateWrapsOnce(angle, 90);
    RotateWrapsOnce(Rotate(angle, 90), -90);
    RotateWrapsOnce(angle, -90);
    RotateWrapsOnce(Rotate(angle, -90), 90);
  }

  /** Four right rotations bring the page back to where it was. */
  lemma RotateFullTurn(angle: int)
    requires 0 <= angle < 360
    ensures Rotate(Rotate(Rotate(Rotate(angle, 90), 90), 90), 90) == angle
  {
    var a1 := Rotate(angle, 90);
    var a2 := Rotate(a1, 90);
    var a3 := Rotate(a2, 90);
    RotateWrapsOnce(angle, 90);
    RotateWrapsOnce(a1, 90);
    RotateWrapsOnce(a2, 90);
    RotateWrapsOnce(a3, 90);
  }

  /**
   * The page view of the viewer window: the open document's page count, the current
   * page, the rotation angle and the zoom slider (in percent; the zoom factor is the
   * slider's value divided by 100).
   */
  class Viewer {
    var pageCount: nat
    var currentPageNum: int
    var rotationAngle: int
    var zoomPercent: int

    predicate Valid()
      reads this
    {
      PageInRange(currentPageNum, pageCount) && 0 <= rotationAngle < 360
    }

    /** A new window: no document, first page, no rotation, 100% zoom. */
    constructor()
      ensures Valid()
      ensures pageCount == 0 && currentPageNum == 0 && rotationAngle == 0 && zoomPercent == 100
    {
      pageCount := 0;
      currentPageNum := 0;
      rotationAngle := 0;
      zoomPercent := 100;
    }

    /**
     * open_file: `outcome` is the page count of the document fitz opened, or None when
     * opening raised. A successful open resets the page, the rotation and the zoom; a
     * failed one changes nothing.
     */
    method OpenFile(outcome: Option<nat>)
      requires Valid()
      modifies this
      ensures Valid()
      ensures outcome.Some? ==> pageCount == outcome.value && currentPageNum == 0 && rotationAngle == 0 && zoomPercent == 100
      ensures outcome.None? ==> unchanged(this)
    {
      if outcome.Some? {
        pageCount := outcome.value;
        currentPageNum := 0;
        rotationAngle := 0;
        zoomPercent := 100;
      }
    }

    method NextPage()
      requires Valid()
      modifies this
      ensures Valid()
      ensures currentPageNum == NextIndex(old(currentPageNum), pageCount)
      ensures pageCount == old(pageCount) && rotationAngle == old(rotationAngle) && zoomPercent == old(zoomPercent)
    {
      NavigationStaysInRange(currentPageNum, 0, pageCount);
      if pageCount > 0 && currentPageNum < pageCount - 1 {
        currentPageNum := currentPageNum + 1;
      }
    }

    method PrevPage()
      requires Valid()
      modifies this
      ensures Valid()
      ensures currentPageNum == PrevIndex(old(currentPageNum), pageCount)
      ensures pageCount == old(pageCount) && rotationAngle == old(rotationAngle) && zoomPercent == old(zoomPercent)
    {
      NavigationStaysInRange(currentPageNum, 0, pageCount);
      if pageCount > 0 && currentPageNum > 0 {
        currentPageNum := currentPageNum - 1;
      }
    }

    method GotoPage(target: int)
      requires Valid()
      modifies this
      ensures Valid()
      ensures currentPageNum == GotoIndex(old(currentPageNum), target, pageCount)
      ensures pageCount == old(pageCount) && rotationAngle == old(rotationAngle) && zoomPercent == old(zoomPercent)
    {
      NavigationStaysInRange(currentPageNum, target, pageCount);
      if pageCount > 0 && 0 <= target < pageCount {
        currentPageNum := target;
      }
    }

    /**
     * goto_page_dialog: with a document, ask for a 1-based page number (the integer
     * dialog only returns values between 1 and the page count); `answer` is None when
     * the dialog is cancelled.
     */
    method GotoPageDialog(answer: Option<int>)
      requires Valid()
      requires pageCount > 0 && answer.Some? ==> 1 <= answer.value <= pageCount
      modifies this
      ensures Valid()
      ensures pageCount > 0 && answer.Some? ==> currentPageNum == answer.value - 1
      ensures pageCount == 0 || answer.None? ==> currentPageNum == old(currentPageNum)
      ensures pageCount == old(pageCount) && rotationAngle == old(rotationAngle) && zoomPercent == old(zoomPercent)
    {
      if pageCount == 0 {
        return;
      }
      if answer.Some? {
        currentPageNum := answer.value - 1;
      }
    }

    /** rotate_page(delta); rotate_left and rotate_right are deltas of -90 and +90. */
    method RotatePage(delta: int)
      requires Valid()
      modifies this
      ensures Valid()
      ensures rotationAngle == Rotate(old(rotationAngle), delta)
      ensures pageCount == old(pageCount) && currentPageNum == old(currentPageNum) && zoomPercent == old(zoomPercent)
    {
      rotationAngle := (rotationAngle + delta) % 360;
    }
  }
}
