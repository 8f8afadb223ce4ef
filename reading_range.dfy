/**
 * The page range a narration run covers, shared by the 2.9.x readers: the
 * controller's clamping of a requested range into the document, the player's reading
 * modes, and which player buttons are enabled for a controller state; and the page
 * text providers the players read from (the 2.9.x one and the earlier readers' one).
 */
module ReadingRange {
  import opened Text

  /**
   * set_read_range: the first page is clamped into the document, the last page into
   * [first, last page of the document]; no upper bound means the last page.
   */
  function ReadRange(totalPages: int, fromPage: int, toPage: Option<int>): (r: (int, int))
    ensures totalPages >= 1 ==> 0 <= r.0 <= r.1 <= totalPages - 1
    ensures toPage.None? ==> r.1 == totalPages - 1
    ensures 0 <= fromPage < totalPages ==> r.0 == fromPage
    ensures toPage.Some? && r.0 <= toPage.value < totalPages ==> r.1 == toPage.value
  {
    var from := Max(0, Min(fromPage, totalPages - 1));
    var to := if toPage.None? then totalPages - 1 else Max(from, Min(toPage.value, totalPages - 1));
    (from, to)
  }

  function Min(a: int, b: int): int { if a <= b then a else b }
  function Max(a: int, b: int): int { if a >= b then a else b }

  /** The player's reading modes; any other mode string behaves as `Current`. */
  datatype ReadMode = All | OnlyCurrent | Range | Current

  /**
   * set_read_mode: the page range a mode selects, from the page shown in the main
   * window, the page count and, for `Range`, the requested bounds (an omitted first
   * page keeps the previous one, an omitted last page means the last page).
   */
  function ModeRange(mode: ReadMode, current: int, totalPages: int, oldFrom: int, fromPage: Option<int>, toPage: Option<int>): (int, int) {
    match mode
    case All => (0, totalPages - 1)
    case OnlyCurrent => (current, current)
    case Range =>
      var from := if fromPage.Some? then Max(0, Min(fromPage.value, totalPages - 1)) else oldFrom;
      (from, if toPage.Some? then Max(from, Min(toPage.value, totalPages - 1)) else totalPages - 1)
    case Current => (current, totalPages - 1)
  }

  /** A range of pages of a document of the given size, first page no later than the last. */
  predicate RangeInDocument(r: (int, int), totalPages: int) {
    0 <= r.0 <= r.1 < totalPages
  }

  /**
   * Each mode selects the range it names: all pages, the current page alone, the
   * current page to the end, or the requested bounds clamped into the document; and
   * the result is always a range of the document.
   */
  lemma ModeRangeMeaning(mode: ReadMode, current: int, totalPages: int, oldFrom: int, fromPage: Option<int>, toPage: Option<int>)
    requires 0 <= current < totalPages && 0 <= oldFrom < totalPages
    ensures RangeInDocument(ModeRange(mode, current, totalPages, oldFrom, fromPage, toPage), totalPages)
    ensures mode == All ==> ModeRange(mode, current, totalPages, oldFrom, fromPage, toPage) == (0, totalPages - 1)
    ensures mode == OnlyCurrent ==> ModeRange(mode, current, totalPages, oldFrom, fromPage, toPage) == (current, current)
    ensures mode == Current ==> ModeRange(mode, current, totalPages, oldFrom, fromPage, toPage) == (current, totalPages - 1)
    ensures mode == Range && fromPage.Some? ==>
      ModeRange(mode, current, totalPages, oldFrom, fromPage, toPage) == ReadRange(totalPages, fromPage.value, toPage)
    ensures mode == Range && fromPage.Some? && 0 <= fromPage.value < totalPages && toPage.Some? && fromPage.value <= toPage.value < totalPages ==>
      ModeRange(mode, current, totalPages, oldFrom, fromPage, toPage) == (fromPage.value, toPage.value)
  {
  }

  /** The controller keeps a range the widget hands it unchanged, so it reads exactly the pages the mode selected. */
  lemma ReadRangeKeepsValidRange(totalPages: int, r: (int, int))
    requires RangeInDocument(r, totalPages)
    ensures ReadRange(totalPages, r.0, Some(r.1)) == r
  {
  }

  /** Which of the player's buttons update_buttons enables. */
  datatype Buttons = Buttons(start: bool, pause: bool, resume: bool, stop: bool, settings: bool)

  function EnabledButtons(running: bool, paused: bool): Buttons {
    Buttons(!running, running && !paused, running && paused, running, !running)
  }

  /** `text_provider(p)`: the page's text, a single space for a blank page or a page outside the document. */
  function PageText(pages: seq<string>, p: int): (t: string)
    ensures IsBlank(t) <==> !(0 <= p < |pages| && !IsBlank(pages[p]))
  {
    if 0 <= p < |pages| && !IsBlank(pages[p]) then pages[p] else " "
  }

  /**
   * The earlier readers' `text_provider(p)`: the page's raw text, and the empty string
   * for a page outside the document.
   */
  function RawPageText(pages: seq<string>, p: int): (t: string)
    ensures t == "" <==> !(0 <= p < |pages| && pages[p] != "")
    ensures t != "" ==> t == pages[p]
  {
    if 0 <= p < |pages| then pages[p] else ""
  }
}
