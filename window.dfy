/**
 * The main window's bookmark commands, as the versions of the reader write them: the
 * dictionary of bookmarks lives next to the page view, every change is written to the
 * settings string in 2.4.3 and later, and the commands of the bookmark dialogs and the
 * bookmark menu move the page view.
 *
 * User answers are parameters: `confirmDelete` is the Yes/No question, `answer` the
 * text dialog's result (None when cancelled), `selected` the list's current item
 * (None when nothing is selected).
 */
module Window {
  import opened Text
  import opened Paging
  import opened Bookmarks

  /**
   * The new dictionary after add_bookmark in 2.5.0 and 2.9.6, or None when nothing
   * changes (and nothing is saved): with a document, a page that has a bookmark loses
   * it when the user confirms, and a page without one gains the non-empty name typed in.
   */
  function ToggleResult(e: Entries, pageCount: nat, page: int, confirmDelete: bool, answer: Option<string>): Option<Entries> {
    if pageCount == 0 then None
    else if page in Keys(e) then (if confirmDelete then Some(Remove(e, page)) else None)
    else if answer.Some? && answer.value != "" then Some(Put(e, page, answer.value))
    else None
  }

  /**
   * add_bookmark in 2.4.3: the existing bookmark is looked up with `get`, and only a
   * non-empty name counts as existing; an empty name (which only a loaded settings
   * string can hold) is treated as no bookmark and overwritten.
   */
  function ToggleNamedResult(e: Entries, pageCount: nat, page: int, confirmDelete: bool, answer: Option<string>): Option<Entries> {
    if pageCount == 0 then None
    else if Get(e, page).Some? && Get(e, page).value != "" then (if confirmDelete then Some(Remove(e, page)) else None)
    else if answer.Some? && answer.value != "" then Some(Put(e, page, answer.value))
    else None
  }

  /** add_bookmark in 2.2: with a document, a non-empty name is set (or replaces the old one). */
  function AddResult(e: Entries, pageCount: nat, page: int, answer: Option<string>): Option<Entries> {
    if pageCount > 0 && answer.Some? && answer.value != "" then Some(Put(e, page, answer.value)) else None
  }

  /**
   * delete_bookmark_dialog in 2.4.3: with bookmarks, the chosen label's page is parsed
   * back and its bookmark deleted when there is one.
   */
  function DeleteChosenResult(e: Entries, choice: Option<string>): Option<Entries> {
    if e == [] || choice.None? || choice.value == "" then None
    else match ParseLabel(choice.value)
      case None => None
      case Some(p) => if p in Keys(e) then Some(Remove(e, p)) else None
  }

  /** The page a selected list item names, as go_to_selected_bookmark and delete_selected_bookmark read it. */
  function SelectedPage(selected: Option<string>): Option<int> {
    if selected.None? || !LooksLikeLabel(selected.value) then None else ParseLabel(selected.value)
  }

  /**
   * delete_selected_bookmark in 2.5.0 and 2.9.6: the selected label's bookmark is
   * deleted after confirmation; a page without a bookmark raises KeyError, which is
   * caught, so nothing changes.
   */
  function DeleteSelectedResult(e: Entries, selected: Option<string>, confirmDelete: bool): Option<Entries> {
    match SelectedPage(selected)
    case None => None
    case Some(p) => if p in Keys(e) && confirmDelete then Some(Remove(e, p)) else None
  }

  /**
   * Toggling is an undo pair: in a document, adding a bookmark on a page that has none
   * and then toggling that page again with confirmation restores the dictionary,
   * items and order included. Declining the question changes nothing.
   */
  lemma ToggleUndoesAdd(e: Entries, pageCount: nat, page: int, name: string, answer: Option<string>)
    requires DistinctKeys(e) && pageCount > 0 && page !in Keys(e) && name != ""
    ensures ToggleResult(e, pageCount, page, false, Some(name)) == Some(Put(e, page, name))
    ensures ToggleResult(Put(e, page, name), pageCount, page, true, answer) == Some(e)
    ensures ToggleResult(Put(e, page, name), pageCount, page, false, answer) == None
  {
    assert Put(e, page, name) == e + [(page, name)];
    assert Keys(e + [(page, name)])[|e|] == page;
    RemoveLastPut(e, page, name);
  }

  /**
   * What a toggle does to the dictionary: without a document nothing; on a bookmarked
   * page it deletes exactly that page if and only if the user confirms; on any other
   * page it adds exactly the typed name if and only if one was typed.
   */
  lemma ToggleMeaning(e: Entries, pageCount: nat, page: int, confirmDelete: bool, answer: Option<string>)
    requires DistinctKeys(e)
    ensures var r := ToggleResult(e, pageCount, page, confirmDelete, answer);
      && (pageCount == 0 ==> r.None?)
      && (r.Some? ==> DistinctKeys(r.value))
      && (pageCount > 0 && page in ToMap(e) ==>
            (r.Some? <==> confirmDelete) && (r.Some? ==> ToMap(r.value) == ToMap(e) - {page}))
      && (pageCount > 0 && page !in ToMap(e) ==>
            (r.Some? <==> answer.Some? && answer.value != "") && (r.Some? ==> ToMap(r.value) == ToMap(e)[page := answer.value]))
  {
    ToMapKeys(e);
    if page in Keys(e) {
      RemoveSpec(e, page);
    } else if answer.Some? {
      PutSpec(e, page, answer.value);
    }
  }

  /**
   * 2.4.3 and 2.9.6 agree except on a page whose stored name is empty: there 2.4.3
   * replaces the bookmark with the typed name, where 2.9.6 offers to delete it.
   */
  lemma EmptyNameCountsAsAbsent(e: Entries, pageCount: nat, page: int, confirmDelete: bool, answer: Option<string>)
    ensures Get(e, page) != Some("") ==>
      ToggleNamedResult(e, pageCount, page, confirmDelete, answer) == ToggleResult(e, pageCount, page, confirmDelete, answer)
    ensures Get(e, page) == Some("") && pageCount > 0 && answer.Some? && answer.value != "" ==>
      ToggleNamedResult(e, pageCount, page, confirmDelete, answer) == Some(Put(e, page, answer.value)) &&
      ToggleResult(e, pageCount, page, confirmDelete, answer) != Some(Put(e, page, answer.value))
  {
    if Get(e, page) == Some("") && pageCount > 0 && answer.Some? && answer.value != "" {
      PutKeepsLength(e, page, answer.value);
      RemoveShrinks(e, page);
    }
  }

  lemma {:induction false} PutKeepsLength(e: Entries, p: int, name: string)
    requires p in Keys(e)
    ensures |Put(e, p, name)| == |e|
  {
    if e != [] && e[0].0 != p {
      assert Keys(e) == [e[0].0] + Keys(e[1..]);
      PutKeepsLength(e[1..], p, name);
    }
  }

  lemma {:induction false} RemoveShrinks(e: Entries, p: int)
    requires p in Keys(e)
    ensures |Remove(e, p)| < |e|
  {
    assert Keys(e) == [e[0].0] + Keys(e[1..]);
    if e[0].0 != p {
      RemoveShrinks(e[1..], p);
    } else {
      RemoveNoLonger(e[1..], p);
    }
  }

  lemma {:induction false} RemoveNoLonger(e: Entries, p: int)
    ensures |Remove(e, p)| <= |e|
  {
    if e != [] {
      RemoveNoLonger(e[1..], p);
    }
  }

  /** Choosing a bookmark's own label in 2.4.3's delete dialog deletes exactly that bookmark. */
  lemma DeleteChosenLabel(e: Entries, p: int, name: string)
    requires DistinctKeys(e) && Get(e, p) == Some(name)
    ensures DeleteChosenResult(e, Some(Label(p, name))) == Some(Remove(e, p))
    ensures ToMap(Remove(e, p)) == ToMap(e) - {p}
  {
    LabelParsesBack(p, name);
    RemoveSpec(e, p);
  }

  /**
   * Selecting a bookmark's label in the 2.5.0 and 2.9.6 bookmark list and pressing
   * delete removes exactly that bookmark when confirmed and nothing otherwise; the
   * placeholder item of an empty list is ignored.
   */
  lemma DeleteSelectedLabel(e: Entries, p: int, name: string, confirmDelete: bool)
    requires DistinctKeys(e) && Get(e, p) == Some(name)
    ensures SelectedPage(Some(Label(p, name))) == Some(p)
    ensures DeleteSelectedResult(e, Some(Label(p, name)), confirmDelete) == if confirmDelete then Some(Remove(e, p)) else None
    ensures ToMap(Remove(e, p)) == ToMap(e) - {p}
    ensures DeleteSelectedResult(e, Some("Нет закладок"), confirmDelete) == None
  {
    LabelParsesBack(p, name);
    RemoveSpec(e, p);
    assert ':' !in "Нет закладок";
  }

  /**
   * Bookmarks are global, not per document: a bookmark saved on page 10 of one book is
   * loaded back unchanged and, selected while a three-page book is open, names page
   * index 9, which is not a page of that book.
   */
  lemma StaleBookmarkLeavesDocument()
    ensures Load([], Encode([(9, "Глава")])) == [(9, "Глава")]
    ensures SelectedPage(Some(Label(9, "Глава"))) == Some(9)
    ensures !PageInRange(9, 3)
  {
    SaveLoadRoundTrip([(9, "Глава")]);
    LabelParsesBack(9, "Глава");
  }

  lemma ItemTextsSnoc(e: Entries, i: nat)
    requires i < |e|
    ensures ItemTexts(e[..i + 1]) == ItemTexts(e[..i]) + [ItemText(e[i].0, e[i].1)]
  {
    assert e[..i + 1] == e[..i] + [e[i]];
    ItemTextsAppend(e[..i], [e[i]]);
  }

  lemma {:induction false} ItemTextsAppend(a: Entries, b: Entries)
    ensures ItemTexts(a + b) == ItemTexts(a) + ItemTexts(b)
  {
    if a == [] {
      assert a + b == b;
    } else {
      assert (a + b)[1..] == a[1..] + b;
      ItemTextsAppend(a[1..], b);
    }
  }

  /**
   * The main window: the page view, the bookmark dictionary and the settings string it
   * was last saved to.
   */
  class ReaderWindow {
    const viewer: Viewer
    var bookmarks: Entries
    var saved: string

    predicate Valid()
      reads this, viewer
    {
      viewer.Valid() && DistinctKeys(bookmarks)
    }

    constructor()
      ensures Valid() && fresh(viewer)
      ensures viewer.pageCount == 0 && bookmarks == [] && saved == ""
    {
      viewer := new Viewer();
      bookmarks := [];
      saved := "";
    }

    /** load_bookmarks: every item of the settings string that parses is stored. */
    method LoadBookmarks(data: string)
      requires Valid()
      modifies this
      ensures Valid()
      ensures bookmarks == Load(old(bookmarks), data) && saved == old(saved)
    {
      if data == [] {
        return;
      }
      var items := Split(data, ';');
      var i := 0;
      while i < |items|
        invariant 0 <= i <= |items|
        invariant DistinctKeys(bookmarks) && saved == old(saved)
        invariant LoadItems(bookmarks, items[i..]) == Load(old(bookmarks), data)
      {
        assert items[i..][1..] == items[i + 1..];
        match ParseItem(items[i]) {
          case None =>
          case Some(pn) =>
            PutSpec(bookmarks, pn.0, pn.1);
            bookmarks := Put(bookmarks, pn.0, pn.1);
        }
        i := i + 1;
      }
      assert items[i..] == [];
    }

    /** save_bookmarks: the items in dictionary order, each "page:name", joined by ';'. */
    method SaveBookmarks()
      modifies this
      ensures saved == Encode(bookmarks) && bookmarks == old(bookmarks)
    {
      var parts: seq<string> := [];
      var i := 0;
      while i < |bookmarks|
        invariant 0 <= i <= |bookmarks|
        invariant bookmarks == old(bookmarks)
        invariant parts == ItemTexts(bookmarks[..i])
      {
        ItemTextsSnoc(bookmarks, i);
        parts := parts + [ItemText(bookmarks[i].0, bookmarks[i].1)];
        i := i + 1;
      }
      assert bookmarks[..i] == bookmarks;
      saved := Join(parts, ';');
    }

    /** Store the new dictionary the command computed, and save it. */
    method Commit(next: Option<Entries>)
      requires next.Some? ==> DistinctKeys(next.value)
      requires Valid()
      modifies this
      ensures Valid()
      ensures next.None? ==> bookmarks == old(bookmarks) && saved == old(saved)
      ensures next.Some? ==> bookmarks == next.value && saved == Encode(next.value)
    {
      if next.Some? {
        bookmarks := next.value;
        SaveBookmarks();
      }
    }

    /** add_bookmark of 2.5.0 and 2.9.6 on the current page. */
    method ToggleBookmark(confirmDelete: bool, answer: Option<string>)
      requires Valid()
      modifies this
      ensures Valid()
      ensures var r := ToggleResult(old(bookmarks), viewer.pageCount, viewer.currentPageNum, confirmDelete, answer);
        (r.None? ==> bookmarks == old(bookmarks) && saved == old(saved)) &&
        (r.Some? ==> bookmarks == r.value && saved == Encode(r.value))
    {
      ToggleMeaning(bookmarks, viewer.pageCount, viewer.currentPageNum, confirmDelete, answer);
      if viewer.pageCount == 0 {
        return;
      }
      var page := viewer.currentPageNum;
      if page in Keys(bookmarks) {
        if confirmDelete {
          Commit(Some(Remove(bookmarks, page)));
        }
        return;
      }
      if answer.Some? && answer.value != "" {
        Commit(Some(Put(bookmarks, page, answer.value)));
      }
    }

    /** add_bookmark of 2.4.3 on the current page. */
    method ToggleNamedBookmark(confirmDelete: bool, answer: Option<string>)
      requires Valid()
      modifies this
      ensures Valid()
      ensures var r := ToggleNamedResult(old(bookmarks), viewer.pageCount, viewer.currentPageNum, confirmDelete, answer);
        (r.None? ==> bookmarks == old(bookmarks) && saved == old(saved)) &&
        (r.Some? ==> bookmarks == r.value && saved == Encode(r.value))
    {
      if viewer.pageCount == 0 {
        return;
      }
      var page := viewer.currentPageNum;
      var existing := Get(bookmarks, page);
      if existing.Some? && existing.value != "" {
        if confirmDelete {
          RemoveSpec(bookmarks, page);
          Commit(Some(Remove(bookmarks, page)));
        }
        return;
      }
      if answer.Some? && answer.value != "" {
        PutSpec(bookmarks, page, answer.value);
        Commit(Some(Put(bookmarks, page, answer.value)));
      }
    }

    /** add_bookmark of 2.2: the dictionary changes but is not saved. */
    method AddBookmark(answer: Option<string>)
      requires Valid()
      modifies this
      ensures Valid()
      ensures var r := AddResult(old(bookmarks), viewer.pageCount, viewer.currentPageNum, answer);
        bookmarks == (if r.Some? then r.value else old(bookmarks)) && saved == old(saved)
    {
      if viewer.pageCount == 0 {
        return;
      }
      if answer.Some? && answer.value != "" {
        PutSpec(bookmarks, viewer.currentPageNum, answer.value);
        bookmarks := Put(bookmarks, viewer.currentPageNum, answer.value);
      }
    }

    /** delete_bookmark_dialog of 2.4.3; `choice` is the label picked from the sorted list. */
    method DeleteChosenBookmark(choice: Option<string>)
      requires Valid()
      modifies this
      ensures Valid()
      ensures var r := DeleteChosenResult(old(bookmarks), choice);
        (r.None? ==> bookmarks == old(bookmarks) && saved == old(saved)) &&
        (r.Some? ==> bookmarks == r.value && saved == Encode(r.value))
    {
      if bookmarks == [] || choice.None? || choice.value == "" {
        return;
      }
      var parsed := ParseLabel(choice.value);
      assert DeleteChosenResult(bookmarks, choice) ==
        if parsed.Some? && parsed.value in Keys(bookmarks) then Some(Remove(bookmarks, parsed.value)) else None;
      if parsed.Some? && parsed.value in Keys(bookmarks) {
        RemoveSpec(bookmarks, parsed.value);
        Commit(Some(Remove(bookmarks, parsed.value)));
      }
    }

    /** delete_selected_bookmark of 2.5.0 and 2.9.6. */
    method DeleteSelectedBookmark(selected: Option<string>, confirmDelete: bool)
      requires Valid()
      modifies this
      ensures Valid()
      ensures var r := DeleteSelectedResult(old(bookmarks), selected, confirmDelete);
        (r.None? ==> bookmarks == old(bookmarks) && saved == old(saved)) &&
        (r.Some? ==> bookmarks == r.value && saved == Encode(r.value))
    {
      if selected.None? || !LooksLikeLabel(selected.value) {
        return;
      }
      var parsed := ParseLabel(selected.value);
      if parsed.None? || parsed.value !in Keys(bookmarks) {
        return;
      }
      if confirmDelete {
        RemoveSpec(bookmarks, parsed.value);
        Commit(Some(Remove(bookmarks, parsed.value)));
      }
    }

    /**
     * goto_bookmark of 2.5.0 and 2.9.6 (a bookmark menu entry), as written: the page
     * index is set without a range check, so a bookmark of another, longer document
     * sets an index outside the open one (render_page then raises on it).
     */
    method GotoBookmarkUnchecked(page: int)
      requires Valid()
      modifies viewer
      ensures viewer.currentPageNum == page
      ensures viewer.pageCount == old(viewer.pageCount) && viewer.rotationAngle == old(viewer.rotationAngle)
      ensures viewer.zoomPercent == old(viewer.zoomPercent)
      ensures viewer.Valid() <==> PageInRange(page, viewer.pageCount)
    {
      viewer.currentPageNum := page;
    }

    /** go_to_selected_bookmark of 2.5.0 and 2.9.6, as written: the parsed page is set unchecked. */
    method GoToSelectedBookmark(selected: Option<string>)
      requires Valid()
      modifies viewer
      ensures viewer.currentPageNum == match SelectedPage(selected) case Some(p) => p case None => old(viewer.currentPageNum)
      ensures viewer.pageCount == old(viewer.pageCount) && viewer.rotationAngle == old(viewer.rotationAngle)
      ensures viewer.zoomPercent == old(viewer.zoomPercent)
      ensures viewer.Valid() <==> PageInRange(viewer.currentPageNum, viewer.pageCount)
    {
      if selected.None? || !LooksLikeLabel(selected.value) {
        return;
      }
      var parsed := ParseLabel(selected.value);
      if parsed.Some? {
        viewer.currentPageNum := parsed.value;
      }
    }

    /**
     * A bookmark menu entry as 2.2 and 2.4.3 wire it, through goto_page, which only
     * moves to a page of the open document; the corrected form of goto_bookmark.
     */
    method GotoBookmark(page: int)
      requires Valid()
      modifies viewer
      ensures Valid()
      ensures viewer.currentPageNum == GotoIndex(old(viewer.currentPageNum), page, viewer.pageCount)
      ensures viewer.pageCount == old(viewer.pageCount) && viewer.rotationAngle == old(viewer.rotationAngle)
      ensures viewer.zoomPercent == old(viewer.zoomPercent)
    {
      viewer.GotoPage(page);
    }
  }
}
