# RuundPDF reader: narration, bookmarks and navigation in Dafny

RuundPDF is a PyQt PDF reader that exists in many versions: `old/app.py`, `old/app_v2.py`,
`old/app_main_v2.2.py`, `old/app_main_v2.4.3.py`, `old/app_main_v2.5.0.py`,
`old/app_main_v2.9.3.py`, `app_main_v2.9.6.py`, `app_main.py`, `app_main_v2.py` and the
stand-alone `tts_player.py`. Around the rendering and widget code, each version carries a
little sequential logic. This project models that logic and proves what it promises:

- **Read-aloud controllers and players.**
  - Each is a class with the source's flag fields (running/playing, paused, stop requested) and guarded start, pause, resume and stop methods.
  - Each has a reading range derived from a mode and clamped to the document.
  - Each has a worker thread that reads the pages.
  - The worker is modelled sequentially. It runs over the page texts and a script of the user's presses: one press arrives while each page (or sentence) is spoken, and a wait on a pause consumes presses until one releases it.
  - A wait that runs out of presses is reported as waiting for ever (`blocked`).
  - Each worker method is proved equal to a recursive specification function, and the properties are lemmas about that function.
- **Sentence segmentation** of version 2.9.3 (`re.split(r'(?<=[.!?])\s+', text)`, strip, drop empty pieces, fall back to the whole text).
- **Voice selection**: the first voice whose lower-cased name contains a keyword, otherwise the first voice. The quirk that "male" lies inside "female" is kept. The `app_main.py` dialog also stores the chosen voice id through its exclusive voice buttons and restores a button from it when it opens.
- **Bookmarks**: the page-to-name dictionary in insertion order, its `page:name;page:name` settings string, add/toggle/delete, the sorted menu, and parsing a list label `Страница N: name` back to a page.
- **Viewer navigation**: the page index under next/previous/goto, rotation modulo 360, the search dialog's result cursor, and the wrap-around, case-insensitive search of 2.5.0.

Modules follow the sources:

| Module | Models |
|---|---|
| `Text` | Python string helpers: `str.strip`, `lower`, `in`, `int()`, `str()`, `split`, `join` |
| `Sentences` | the 2.9.3 segmentation |
| `Voices` | the shared voice heuristic |
| `Bookmarks` | the dictionary and its encoding |
| `ReadingRange` | ranges and page-text providers |
| `Paging` | the viewer |
| `Search` | search |
| `Window` | the bookmark commands of the main window |
| `AppMainV296`, `AppMainV293`, `AppMainV250`, `AppMainV243`, `AppMainV22` | one module per numbered version |
| `Playback` | the player shared by 2.2 and 2.4.3 |
| `LoopPlayer` | the player shared by `app_main_v2.py` and `app_main.py` |
| `AppMainV2` and `AppMain` | their classes |
| `TtsPlayer` | `tts_player.py` |

Conventions:

- Every integer is unbounded, as in Python.
- A page count of 0 stands for "no document", since a fitz document with no pages is falsy.
- The zoom is a percentage: 100 is `zoom_factor = 1.0` in `old/app.py` and the slider value 100 in the later versions.

## Model

| member | source | states |
|---|---|---|
| Text.TrimStart | old/app_main_v2.9.3.py:285-299 | lstrip drops exactly the leading whitespace: the result is a suffix, everything cut is whitespace, it starts with non-whitespace, and no other character is lost |
| Text.TrimEnd | old/app_main_v2.9.3.py:285-299 | rstrip drops exactly the trailing whitespace: a prefix, everything cut is whitespace, it ends with non-whitespace, no other character lost |
| Text.StripProperties | old/app_main_v2.9.3.py:293-297 | strip loses only whitespace; the result is empty exactly for a blank string; otherwise it has no whitespace at either end |
| Text.StripKeepsLast | old/app_main_v2.9.3.py:293 | a string ending in a non-whitespace character keeps it last when stripped |
| Text.StripIdentity | old/app_main_v2.9.3.py:293 | a string with no whitespace at either end is its own strip |
| Text.RemoveSpacesEmptyIffBlank | old/app_main_v2.9.3.py:293-297 | a string has no non-whitespace character exactly when it is empty or whitespace only |
| Text.Lower | app_main_v2.9.6.py:295 | lower-casing keeps the length and maps every character on its own |
| Text.NatToString | app_main_v2.9.6.py:1181 | `str(n)` of a non-negative number is a non-empty string of digits |
| Text.NatToStringValue | app_main_v2.9.6.py:1181 | those digits read back as n |
| Text.IntToString | app_main.py:117 | `str(n)` of any integer is non-empty, has no whitespace at its ends, and holds only digits and '-' |
| Text.IntToStringRoundTrip | app_main.py:146-151 | `int(str(n)) == n` for every integer, so a page number written into a field parses back to itself |
| Text.IndexOf | app_main_v2.9.6.py:1166-1167 | the first occurrence of a character, or none when it does not occur |
| Text.SplitJoin | app_main_v2.9.6.py:1160-1184 | splitting a join on a separator that no piece contains gives back the pieces |
| Text.Split | app_main_v2.9.6.py:1165 | `split(sep)` always gives at least one piece |
| Text.RemoveAllAbsent | app_main_v2.9.6.py:1817-1834 | `replace` with a pattern whose first character does not occur leaves the string as it is |
| Sentences.FindBreak | old/app_main_v2.9.3.py:290 | the leftmost place at or after a position where whitespace follows a terminator; none when there is none |
| Sentences.SpaceRunEnd | old/app_main_v2.9.3.py:290 | the greedy `\s+` match ends at the first non-whitespace character or the end |
| Sentences.RawPiecesEndWithTerminators | old/app_main_v2.9.3.py:290 | every piece of `re.split` but the last was cut right after `.`, `!` or `?` |
| Sentences.RawPiecesKeepContent | old/app_main_v2.9.3.py:290 | `re.split` drops only the whitespace runs it splits at |
| Sentences.CleanStripped | old/app_main_v2.9.3.py:293 | every piece the comprehension keeps is stripped and non-empty |
| Sentences.CleanKeepsContent | old/app_main_v2.9.3.py:293 | stripping and dropping blank pieces loses only whitespace |
| Sentences.CleanEndsWithTerminators | old/app_main_v2.9.3.py:293 | when all pieces but the last end with a terminator, so do all kept pieces but the last |
| Sentences.CleanCons | old/app_main_v2.9.3.py:293 | the comprehension handles the first piece, then the rest |
| Sentences.CleanRawWidth | old/app_main_v2.9.3.py:290-293 | the kept sentences, each counted with one separating space, are at most one longer than the text |
| Sentences.JoinLength | old/app_main_v2.9.3.py:226 | `' '.join` of sentences is one shorter than their lengths each counted with one space |
| Sentences.SentencesShape | old/app_main_v2.9.3.py:285-299 | the result is never empty; the fallback `[text]` is taken exactly when the text is blank; otherwise every sentence is stripped and non-empty |
| Sentences.SentencesEndWithTerminators | old/app_main_v2.9.3.py:290 | every sentence but possibly the last ends with `.`, `!` or `?` |
| Sentences.SentencesKeepContent | old/app_main_v2.9.3.py:290-293 | with all whitespace deleted, the joined sentences equal the text: nothing lost or reordered |
| Sentences.SentencePositionBound | old/app_main_v2.9.3.py:226 | the position recorded after each sentence never runs past the end of the text |
| Voices.FirstMatch | app_main_v2.9.6.py:293-303 | the index of the first voice whose lower-cased name contains a keyword: it matches and no earlier voice does; none when no voice matches |
| Voices.FirstMatchIsFirst | app_main_v2.9.6.py:293-303 | a matching voice with no match before it is the first match |
| Voices.FirstMatchNone | app_main_v2.9.6.py:293-303 | with no matching voice there is no first match |
| Voices.ScanVoices | app_main_v2.9.6.py:285-310 | the scan loop returns the first matching voice's id, else the first voice's id, else nothing; the same code also at `old/app_main_v2.9.3.py:301-327` |
| Voices.ChosenComesFromList | old/app_main_v2.9.3.py:306-323 | a voice is chosen exactly when the list is non-empty; the chosen id is a listed voice's; with no match it is the first voice |
| Voices.ChoosesFirstMatch | old/app_main_v2.9.3.py:306-323 | when some voice matches, the chosen voice is the first match |
| Voices.FemaleNameMatchesMale | app_main_v2.9.6.py:302 | a name containing "female" passes the male test |
| Voices.MaleRequestPicksFemaleVoice | app_main_v2.9.6.py:298-303 | a female voice listed first is chosen for a male request |
| Bookmarks.Keys | app_main_v2.9.6.py:1176-1184 | the dictionary's keys in insertion order |
| Bookmarks.ToMapKeys | app_main_v2.9.6.py:1160-1184 | the map view has exactly the listed pages as keys |
| Bookmarks.Put | app_main_v2.9.6.py:1733-1758 | `d[p] = name`: an existing key keeps its place and takes the name, a new key is appended |
| Bookmarks.PutKeys | app_main_v2.9.6.py:1755 | `d[p] = name` leaves the key order as it is for a known page and appends a new page at the end |
| Bookmarks.PutSpec | app_main_v2.9.6.py:1733-1758 | storing keeps the pages distinct and changes the map at that page only |
| Bookmarks.Remove | app_main_v2.9.6.py:1836-1866 | `del d[p]`: the remaining pages are exactly the old ones but p |
| Bookmarks.RemoveSpec | app_main_v2.9.6.py:1836-1866 | deleting keeps the pages distinct and drops p from the map |
| Bookmarks.RemoveLastPut | app_main_v2.9.6.py:1733-1758 | deleting a bookmark just added to a page that had none restores the dictionary |
| Bookmarks.Get | old/app_main_v2.4.3.py:1099-1130 | `d.get(p)` is present exactly for a bookmarked page and returns the stored name |
| Bookmarks.ItemTexts | app_main_v2.9.6.py:1176-1184 | one `page:name` item per bookmark, in dictionary order |
| Bookmarks.ItemTextParses | app_main_v2.9.6.py:1160-1174 | every saved item parses back to its page and name, even when the name contains ':' |
| Bookmarks.ItemsHaveNoSeparator | app_main_v2.9.6.py:1180-1182 | when no name contains ';', no saved item does, so `split(';')` gives the items back |
| Bookmarks.LoadFirstItem | app_main_v2.9.6.py:1165-1170 | loading a saved item whose page is not yet stored appends it |
| Bookmarks.LoadItemsAppends | app_main_v2.9.6.py:1165-1170 | loading the saved items of bookmarks with distinct pages appends exactly those bookmarks, in order |
| Bookmarks.SaveLoadRoundTrip | old/app_main_v2.4.3.py:565-595 | save then load into an empty dictionary gives back the same dictionary, order included, when no name contains ';'; the same code also at `app_main_v2.9.6.py:1160-1184` |
| Bookmarks.LoadKeepsKeysDistinct | app_main_v2.9.6.py:1160-1174 | loading never stores two bookmarks for one page |
| Bookmarks.LabelParsesBack | app_main_v2.9.6.py:1817-1834 | every list label `Страница {p+1}: {name}` passes the guard and parses back to p, whatever the name |
| Bookmarks.LabelHead | app_main_v2.9.6.py:1823-1824 | every label contains ':', and the part before its first ':' is the prefix and the 1-based page number |
| Bookmarks.PrefixedNumberParses | app_main_v2.9.6.py:1824-1826 | with the prefix removed and the blanks stripped, a written page number parses back to itself |
| Bookmarks.Insert | app_main_v2.9.6.py:1768 | inserting into the sorted list puts the new item or the old head first |
| Bookmarks.InsertSpec | app_main_v2.9.6.py:1768 | insertion keeps the list sorted by page and adds exactly that item |
| Bookmarks.InsertSorted | app_main_v2.9.6.py:1768 | inserting a new page into a list sorted by page keeps it sorted |
| Bookmarks.InsertKeeps | app_main_v2.9.6.py:1768 | insertion adds exactly the new item and loses none |
| Bookmarks.SortByPageSpec | app_main_v2.9.6.py:1760-1771 | the menu lists every bookmark exactly once, in ascending page order; the same code also at `old/app_main_v2.2.py:1035-1045` |
| Window.ToggleMeaning | app_main_v2.9.6.py:1733-1758 | add_bookmark with a document: a bookmarked page is deleted exactly when confirmed; another page gains exactly the typed name when one is typed; no document changes nothing; the same code also at `old/app_main_v2.5.0.py:984-1011` |
| Window.ToggleUndoesAdd | old/app_main_v2.5.0.py:984-1011 | adding a bookmark then toggling that page with confirmation restores the dictionary, order included; declining changes nothing |
| Window.EmptyNameCountsAsAbsent | old/app_main_v2.4.3.py:1099-1130 | 2.4.3 and 2.9.6 toggle alike except on a page whose stored name is empty, which 2.4.3 overwrites |
| Window.DeleteChosenLabel | old/app_main_v2.4.3.py:1195-1218 | choosing a bookmark's label in the delete dialog deletes exactly that bookmark |
| Window.DeleteSelectedLabel | app_main_v2.9.6.py:1836-1866 | deleting the selected label removes exactly that bookmark when confirmed, nothing otherwise; the placeholder item is ignored |
| Window.StaleBookmarkLeavesDocument | app_main_v2.9.6.py:1773-1778 | a bookmark saved on page 10 round-trips through the settings and names page index 9, which a three-page document does not have |
| Window.ReaderWindow.constructor | app_main_v2.9.6.py:1128-1133 | a new window has no document and no bookmarks |
| Window.ReaderWindow.LoadBookmarks | app_main_v2.9.6.py:1160-1174 | load_bookmarks stores every item that parses, into the current dictionary |
| Window.ReaderWindow.SaveBookmarks | app_main_v2.9.6.py:1176-1184 | the saved string is the encoding of the dictionary |
| Window.ReaderWindow.Commit | app_main_v2.9.6.py:1756-1758 | the new dictionary is stored and saved |
| Window.ReaderWindow.ToggleBookmark | app_main_v2.9.6.py:1733-1758 | add_bookmark of 2.5.0 and 2.9.6 on the current page, saved when it changes |
| Window.ReaderWindow.ToggleNamedBookmark | old/app_main_v2.4.3.py:1099-1130 | add_bookmark of 2.4.3 on the current page |
| Window.ReaderWindow.AddBookmark | old/app_main_v2.2.py:1023-1033 | add_bookmark of 2.2: a non-empty name is stored, nothing is saved |
| Window.ReaderWindow.DeleteChosenBookmark | old/app_main_v2.4.3.py:1195-1218 | delete_bookmark_dialog deletes the chosen label's bookmark and saves |
| Window.ReaderWindow.DeleteSelectedBookmark | app_main_v2.9.6.py:1836-1866 | delete_selected_bookmark deletes the selected label's bookmark after confirmation |
| Window.ReaderWindow.GotoBookmarkUnchecked | app_main_v2.9.6.py:1773-1778 | as written: the page is set whatever it is, and the view stays valid exactly when it is a page of the document |
| Window.ReaderWindow.GoToSelectedBookmark | app_main_v2.9.6.py:1817-1834 | as written: the parsed page is set unchecked, valid exactly when in the document |
| Window.ReaderWindow.GotoBookmark | old/app_main_v2.4.3.py:983-987 | a bookmark entry through goto_page only lands on a page of the document |
| Paging.Rotate | old/app.py:164-167 | the angle stays in [0, 360) and differs from angle + delta by a multiple of 360 |
| Paging.RotateKeepsQuarterTurns | app_main_v2.py:513-515 | right-angle rotations keep the angle one of 0, 90, 180, 270 |
| Paging.RotateWrapsOnce | old/app_v2.py:255-258 | one rotation by at most a full turn wraps at most once |
| Paging.RotateLeftRightInverse | old/app.py:164-167 | +90 then -90, and -90 then +90, restore the angle |
| Paging.RotateFullTurn | old/app_v2.py:255-258 | four +90 rotations restore the angle |
| Paging.NavigationStaysInRange | app_main_v2.py:493-506 | next, previous and goto keep the page in the document; goto lands on its target exactly when the target is a page |
| Paging.NextPrevInverse | old/app_v2.py:237-247 | previous undoes next and next undoes previous; each is refused exactly at the last or the first page |
| Paging.NextPagesSaturate | app_main_v2.9.6.py:1644-1649 | k presses of next advance k pages but never past the last |
| Paging.Viewer.constructor | old/app.py:13-24 | a new window has no document, page 0, angle 0, zoom 100% |
| Paging.Viewer.OpenFile | old/app.py:104-117 | a successful open resets page, rotation and zoom; a failed one changes nothing; the same code also at `old/app_v2.py:190-208`, `app_main.py:419-434` |
| Paging.Viewer.NextPage | old/app.py:146-150 | next_page advances only below the last page, nothing else changes; the same code also at `old/app_v2.py:237-241`, `app_main.py:462-465`, `app_main_v2.py:493-496`, `app_main_v2.9.6.py:1644-1649` |
| Paging.Viewer.PrevPage | old/app.py:152-156 | prev_page retreats only above page 0; the same code also at `old/app_v2.py:243-247`, `app_main.py:467-470`, `app_main_v2.py:498-501`, `app_main_v2.9.6.py:1651-1656` |
| Paging.Viewer.GotoPage | app_main_v2.py:503-506 | goto moves only to a page of the document; the same code also at `app_main.py:472-475`, `old/app_main_v2.4.3.py:983-987` |
| Paging.Viewer.GotoPageDialog | app_main_v2.9.6.py:1414-1428 | a 1-based answer becomes the page; cancelling or no document changes nothing |
| Paging.Viewer.RotatePage | app_main.py:482-484 | rotation by delta modulo 360, nothing else changes; the same code also at `app_main_v2.9.6.py:1664-1672`, `old/app.py:164-167` |
| Search.Copies | app_main_v2.9.6.py:867-875 | k results of one page |
| Search.ResultsOrdered | app_main_v2.9.6.py:863-875 | results are in page order and are pages of the document |
| Search.ResultsCount | app_main_v2.9.6.py:863-875 | each page appears exactly as many times as fitz found the text on it |
| Search.ResultsCountAt | app_main_v2.9.6.py:863-875 | among the results of the first n pages, a page below n occurs as often as it has hits; any other value never occurs |
| Search.Occurrences | app_main_v2.9.6.py:867-872 | a count of one page among the results never exceeds their number |
| Search.CountIsMultiplicity | app_main_v2.9.6.py:867-872 | that count is the multiplicity of the page in the results |
| Search.CopiesOccur | app_main_v2.9.6.py:867-872 | the k results of one page count k for that page and 0 for any other |
| Search.ResultsOccur | app_main_v2.9.6.py:863-875 | the results of the first n pages count each page below n as often as it has hits, any other value 0 times |
| Search.ResultPagesAreMatches | app_main_v2.9.6.py:863-875 | a page is among the results exactly when it has a match |
| Search.CollectResults | app_main_v2.9.6.py:863-875 | the collecting loop gives exactly the results function |
| Search.SearchDialog.constructor | app_main_v2.9.6.py:811-819 | a new dialog has no results and no current result |
| Search.SearchDialog.PerformSearch | app_main_v2.9.6.py:855-882 | an empty query or no document changes nothing; otherwise the results are replaced, and the cursor and the view go to the first |
| Search.SearchDialog.Highlight | app_main_v2.9.6.py:884-892 | the view shows the current result's page |
| Search.SearchDialog.PrevResult | old/app_main_v2.9.3.py:897-900 | one result back unless at the first; the cursor stays on a result |
| Search.SearchDialog.NextResult | old/app_main_v2.9.3.py:902-905 | one result on unless at the last |
| Search.SearchDialog.GoToResult | old/app_main_v2.9.3.py:907-911 | a row that is a result becomes current; other rows are ignored |
| Search.SearchDialog.ParentOpensFile | app_main_v2.9.6.py:1430-1455 | opening a document resets the view and empties the results |
| Search.CursorStaysOnResults | old/app_main_v2.9.3.py:897-911 | the cursor of a non-empty list stays on a result whatever is pressed; previous undoes next |
| Search.FirstHit | old/app_main_v2.5.0.py:767-777 | the first page of a range whose lower-cased text contains the lower-cased query |
| Search.WrapSearchFindsNearest | old/app_main_v2.5.0.py:759-793 | the search lands on a page with the text exactly when one exists, on the nearest one forward from the current page wrapping round; otherwise the page is unchanged |
| Search.DistanceForm | old/app_main_v2.5.0.py:767-790 | the forward distance with wrap-around |
| Search.SearchText | old/app_main_v2.5.0.py:759-793 | the two search loops move the view to the wrap-around search's page; an empty query or no document changes nothing |
| ReadingRange.ReadRange | app_main_v2.9.6.py:91-98 | with pages, 0 <= first <= last <= total-1; no last page means the last page; bounds already in range are kept; the same code also at `old/app_main_v2.9.3.py:96-103` |
| ReadingRange.ModeRangeMeaning | app_main_v2.9.6.py:669-690 | all -> [0, last], only_current -> [cur, cur], current -> [cur, last], range -> the clamped bounds; always a range of the document |
| ReadingRange.ReadRangeKeepsValidRange | app_main_v2.9.6.py:711-720 | the controller keeps a range the widget hands it |
| ReadingRange.PageText | app_main_v2.9.6.py:1603-1610 | the text provider is blank exactly for a blank page or a page outside the document |
| ReadingRange.RawPageText | old/app_main_v2.5.0.py:919-923 | the earlier provider is empty exactly for an empty page or one outside the document, else the page's text |
| AppMainV296.Apply | app_main_v2.9.6.py:104-188 | no command changes the range or the loop mode |
| AppMainV296.CommandGuards | app_main_v2.9.6.py:104-188 | start acts exactly when idle, from read_from_page; pause exactly when running unpaused, recording the page; resume exactly when paused, back to that page; stop exactly when running, leaving it stopped |
| AppMainV296.CommandsKeepConsistent | app_main_v2.9.6.py:126-161 | every command keeps "paused implies running with a recorded page" |
| AppMainV296.AwaitResume | app_main_v2.9.6.py:203-213 | the wait only consumes presses and, when it ends, has cleared the resume event |
| AppMainV296.AwaitOneCommand | app_main_v2.9.6.py:205 | a wait not yet released takes the next press and goes on waiting |
| AppMainV296.AwaitEnds | app_main_v2.9.6.py:205-206 | a set resume event releases the wait and is cleared; with no press left the wait never ends |
| AppMainV296.Listen | app_main_v2.9.6.py:232-233 | a press arriving while a page is spoken changes neither the range nor the loop mode |
| AppMainV296.PageTurn | app_main_v2.9.6.py:199-256 | one turn keeps the range and the loop mode and never emits `finished`; a turn that goes on uses a press, consumes the pending resume, or moves the iterator one page |
| AppMainV296.PagesTurn | app_main_v2.9.6.py:198-256 | the page loop is its first turn followed by the loop from the turn's next iterator value, or ends there when the turn leaves or waits for ever |
| AppMainV296.PagesEnded | app_main_v2.9.6.py:198-200 | past the end of the range, or once a stop is asked for, the page loop ends and emits nothing |
| AppMainV296.AfterTurn | app_main_v2.9.6.py:198-256 | the loop from a turn on keeps the range, never runs out of passes, and only appends to the log, never `finished` |
| AppMainV296.ContinueTurn | app_main_v2.9.6.py:198-256 | under the `for` iterator a turn that goes on leads to the loop at the next iterator value with the turn's state, presses and log; one that leaves or waits ends the loop there |
| AppMainV296.Pages | app_main_v2.9.6.py:198-222 | the page loop keeps the range, never runs out of passes, and only appends, never `finished` |
| AppMainV296.WorkerStep | app_main_v2.9.6.py:193-264 | one pass of the `while` loop: a pass left waiting is the result; outside loop mode or after a stop the worker finishes; otherwise it restarts at read_from_page with one pass fewer |
| AppMainV296.Finish | app_main_v2.9.6.py:282-283 | the worker ends neither running nor paused |
| AppMainV296.ExpectedCoversRange | app_main_v2.9.6.py:198-222 | an uninterrupted scan has a progress event for every page of the range and speaks exactly its non-blank pages |
| AppMainV296.UninterruptedPass | app_main_v2.9.6.py:198-222 | without presses the page loop emits exactly that scan from the iterator to the end of the range, in ascending order |
| AppMainV296.UninterruptedStep | app_main_v2.9.6.py:215-222 | without presses one page emits its progress, then its speech unless it is blank, and the loop goes on at the next page |
| AppMainV296.UninterruptedRun | app_main_v2.9.6.py:190-283 | outside loop mode an uninterrupted run reads from the current page to the end, then `finished`, ending idle |
| AppMainV296.LoopPassRestarts | app_main_v2.9.6.py:259-264 | in loop mode, without presses, a pass reads from the current page to the end of the range and the next pass starts at read_from_page |
| AppMainV296.LoopRestartsAtReadFrom | app_main_v2.9.6.py:259-268 | in loop mode every later pass restarts at read_from_page |
| AppMainV296.WorkerEndsIdle | app_main_v2.9.6.py:259-283 | the worker always ends neither running nor paused; `finished` is its last signal exactly when no stop was requested |
| AppMainV296.StartedOnThreePages | app_main_v2.9.6.py:61-124 | a controller just started on three pages, outside loop mode, at page 0 with nothing pending |
| AppMainV296.SkipFirstPage | app_main_v2.9.6.py:215-240 | on three pages, page 0 is spoken while the pause arrives; the iterator moves on to 1 with the resume still to come |
| AppMainV296.ResumeReleases | app_main_v2.9.6.py:147-161 | the resume after that pause releases the wait and gives back the controller as started |
| AppMainV296.SkipResumedPage | app_main_v2.9.6.py:203-240 | at iterator value 1 the wait is released and `page_num = self.current_page` makes page 0 spoken again; the iterator moves on to 2 |
| AppMainV296.LastPageTurn | app_main_v2.9.6.py:215-233 | at iterator value 2, with no press left, page 2 is spoken |
| AppMainV296.SkipAfterResume | app_main_v2.9.6.py:198-222 | as written, on three pages whose first and last have text, a pause pressed while page 0 is spoken and a resume pressed while the worker waits before page 1 read pages 0, 0, 2 and then `finished`; page 1 is never visited |
| AppMainV296.ApplyKeepsScanBounds | app_main_v2.9.6.py:126-161 | a press keeps the current page, and the paused-at page of a paused controller, between the scan's start and its iterator |
| AppMainV296.AwaitKeepsScanBounds | app_main_v2.9.6.py:205-206 | the wait keeps those bounds |
| AppMainV296.FollowingTurn | app_main_v2.9.6.py:198-222 | a turn of the scan that follows the current page keeps the bounds and reports a page no later than its iterator, so no page is passed over |
| AppMainV296.FollowingScanCoversRange | app_main_v2.9.6.py:198-222 | continuing from the page actually re-read, a scan that ends without a stop has visited every page to the end of the range |
| AppMainV296.CorrectedReadsEveryPage | app_main_v2.9.6.py:198-222 | with that correction, any pauses and resumes leave no page of the range unvisited |
| AppMainV296.ButtonsMatchGuards | app_main_v2.9.6.py:698-709 | each button is enabled exactly when its command acts; settings with start |
| AppMainV296.TTSController.constructor | app_main_v2.9.6.py:61-89 | a new controller reads the whole document and is idle |
| AppMainV296.TTSController.SetReadRange | app_main_v2.9.6.py:91-98 | the range becomes the clamped one, nothing else changes |
| AppMainV296.TTSController.SetLoopReading | app_main_v2.9.6.py:100-102 | only the loop flag changes |
| AppMainV296.TTSController.StartReading | app_main_v2.9.6.py:104-124 | start_reading as the start command |
| AppMainV296.TTSController.PauseReading | app_main_v2.9.6.py:126-145 | pause_reading as the pause command |
| AppMainV296.TTSController.ResumeReading | app_main_v2.9.6.py:147-161 | resume_reading as the resume command |
| AppMainV296.TTSController.StopReading | app_main_v2.9.6.py:163-188 | stop_reading as the stop command |
| AppMainV296.TTSController.Deliver | app_main_v2.9.6.py:104-188 | a press applies its command to the controller |
| AppMainV296.TTSController.WaitForResume | app_main_v2.9.6.py:205-206 | the wait consumes exactly the presses its specification consumes and ends as it does |
| AppMainV296.TTSController.ListenWhileSpeaking | app_main_v2.9.6.py:232-233 | the press given while a page is spoken, as its specification |
| AppMainV296.TTSController.ReadPage | app_main_v2.9.6.py:199-256 | one turn of the `for` loop gives exactly the turn specification's state, presses, signals and step, and a turn that goes on moves the iterator by one |
| AppMainV296.TTSController.PassTurn | app_main_v2.9.6.py:198-256 | one turn read as one step of the page loop's specification, the range unchanged |
| AppMainV296.TTSController.ReadPass | app_main_v2.9.6.py:198-256 | the `for` loop from the current page produces exactly the page loop specification's state, presses, signals and outcome |
| AppMainV296.TTSController.ReadDocument | app_main_v2.9.6.py:190-283 | the worker's while and for loops produce exactly the worker specification's signals, state and outcome |
| AppMainV296.TTSPlayerWidget.constructor | app_main_v2.9.6.py:481-516 | a new player reads from the main window's page to the end |
| AppMainV296.TTSPlayerWidget.FollowMainPage | app_main_v2.9.6.py:664-667 | the widget follows the main window's page, its range unchanged |
| AppMainV296.TTSPlayerWidget.SetReadMode | app_main_v2.9.6.py:669-690 | the range becomes the mode's range |
| AppMainV296.TTSPlayerWidget.SetLoopReading | app_main_v2.9.6.py:692-696 | the loop flag is passed to the controller |
| AppMainV296.TTSPlayerWidget.UpdateButtons | app_main_v2.9.6.py:698-709 | the buttons follow the controller's flags |
| AppMainV296.TTSPlayerWidget.StartReading | app_main_v2.9.6.py:711-720 | the controller gets the widget's range and starts at its first page |
| AppMainV293.Apply | old/app_main_v2.9.3.py:105-170 | commands keep the range, the page and the text position |
| AppMainV293.StartResetsPosition | old/app_main_v2.9.3.py:105-130 | start acts only when idle and then runs from the first page of the range at position 0 with requests cleared |
| AppMainV293.RequestsLeaveStateToWorker | old/app_main_v2.9.3.py:132-170 | pause and resume only raise their request under their guard; stop acts at once |
| AppMainV293.HandlePause | old/app_main_v2.9.3.py:260-277 | _handle_pause keeps the range, the page and the position |
| AppMainV293.Await | old/app_main_v2.9.3.py:276-277 | the wait for resume_event keeps the range, the page and the text position |
| AppMainV293.Prepare | old/app_main_v2.9.3.py:209-217 | the checks before a sentence keep the range, the page and the text position |
| AppMainV293.Listen | old/app_main_v2.9.3.py:222-223 | a press arriving while a sentence is spoken keeps the range, the page and the text position |
| AppMainV293.ListenKeepsQuiet | old/app_main_v2.9.3.py:132-142 | presses other than stop only raise requests: the worker stays quiet and the text position is kept |
| AppMainV293.PrepareKeepsQuiet | old/app_main_v2.9.3.py:209-217 | without a stop a pending pause never leaves the loop; when the checks go on, only the pause request is cleared |
| AppMainV293.Speak | old/app_main_v2.9.3.py:205-230 | the sentence loop keeps the range and the page, never emits `finished` |
| AppMainV293.SpeakTurn | old/app_main_v2.9.3.py:206-230 | one sentence and the rest of the loop keep the range and the page, never `finished` |
| AppMainV293.Pages | old/app_main_v2.9.3.py:180-238 | the page loop keeps the range and never emits `finished` |
| AppMainV293.PageTurn | old/app_main_v2.9.3.py:184-238 | one page turn keeps the range |
| AppMainV293.WorkerEndsAtPositionZero | old/app_main_v2.9.3.py:240-258 | the worker ends idle at position 0 and reports `finished` exactly when no stop was asked for |
| AppMainV293.PositionStaysInText | old/app_main_v2.9.3.py:195-226 | every recorded position lies inside the page's text |
| AppMainV293.PositionBounded | old/app_main_v2.9.3.py:205-226 | the position the sentence loop records stays within any bound that every sentence end respects |
| AppMainV293.AwaitReleasedByResume | old/app_main_v2.9.3.py:260-283 | without stops, a held worker is released exactly by the first resume |
| AppMainV293.SpeakSaysEverySentence | old/app_main_v2.9.3.py:205-230 | without a stop, pausing and resuming loses no sentence: every non-blank sentence is spoken once, in order |
| AppMainV293.PageTurnReadsPage | old/app_main_v2.9.3.py:184-234 | a page read from position 0 yields its progress and all its sentences, then resets the position to 0 |
| AppMainV293.PagesReadEverything | old/app_main_v2.9.3.py:180-238 | the page loop reads every page of the range in full unless it waits for ever |
| AppMainV293.PauseResumeLosesNothing | old/app_main_v2.9.3.py:105-258 | a started run without a stop that is not left waiting reads the range completely, every sentence once and in order, then `finished` |
| AppMainV293.StartModesMatchSetReadMode | old/app_main_v2.9.3.py:668-696 | start_reading's fixed modes select current -> [cur, last], only_current -> [cur, cur], all -> [0, last] |
| AppMainV293.TTSController.constructor | old/app_main_v2.9.3.py:62-94 | a new controller reads the whole document and is idle |
| AppMainV293.TTSController.SetReadRange | old/app_main_v2.9.3.py:96-103 | the range becomes the clamped one |
| AppMainV293.TTSController.StartReading | old/app_main_v2.9.3.py:105-130 | start as the start command |
| AppMainV293.TTSController.PauseReading | old/app_main_v2.9.3.py:132-136 | pause as the pause request |
| AppMainV293.TTSController.ResumeReading | old/app_main_v2.9.3.py:138-142 | resume as the resume request |
| AppMainV293.TTSController.StopReading | old/app_main_v2.9.3.py:144-170 | stop as the stop command |
| AppMainV293.TTSController.Deliver | old/app_main_v2.9.3.py:105-170 | a press applies its command to the controller |
| AppMainV293.TTSController.ListenWhileSpeaking | old/app_main_v2.9.3.py:222-223 | the press given while a sentence is spoken, as its specification |
| AppMainV293.TTSController.PrepareSentence | old/app_main_v2.9.3.py:209-217 | the checks before a sentence consume exactly the presses of their specification and give its step |
| AppMainV293.TTSController.ReadSentence | old/app_main_v2.9.3.py:206-230 | one turn of the sentence loop: either the loop ends with the specification's run, or the specification goes on from the next sentence |
| AppMainV293.TTSController.ReadSentences | old/app_main_v2.9.3.py:205-230 | the sentence loop produces exactly the sentence loop specification |
| AppMainV293.TTSController.ReadPage | old/app_main_v2.9.3.py:181-238 | one turn of the page loop produces exactly the page turn specification |
| AppMainV293.TTSController.HoldForResume | old/app_main_v2.9.3.py:260-277 | the pause handler's wait equals its specification |
| AppMainV293.TTSController.ReadDocument | old/app_main_v2.9.3.py:172-258 | the nested page and sentence loops produce exactly the worker specification's signals and state |
| AppMainV293.TTSPlayerWidget.constructor | old/app_main_v2.9.3.py:471-505 | a new player reads from the main window's page to the end |
| AppMainV293.TTSPlayerWidget.SetReadMode | old/app_main_v2.9.3.py:604-625 | the range becomes the mode's range |
| AppMainV293.TTSPlayerWidget.FollowMainPage | old/app_main_v2.9.3.py:595-602 | the widget follows the main window's page |
| AppMainV293.TTSPlayerWidget.PauseReading | old/app_main_v2.9.3.py:698-702 | forwarded under the controller's guard |
| AppMainV293.TTSPlayerWidget.ResumeReading | old/app_main_v2.9.3.py:704-708 | forwarded under the controller's guard |
| AppMainV293.TTSPlayerWidget.UpdateButtons | old/app_main_v2.9.3.py:652-666 | the buttons follow the controller's flags |
| AppMainV293.TTSPlayerWidget.StartReading | old/app_main_v2.9.3.py:627-696 | the checked mode's range is used; an unconfigured range mode opens the settings instead of starting |
| Playback.NavigationMeaning | old/app_main_v2.4.3.py:358-382 | previous and next move one page only inside the document, first and last reach its ends, and a move stops playback; the same code also at `old/app_main_v2.2.py:344-368` |
| Playback.ToggleMeaning | old/app_main_v2.4.3.py:384-391 | toggle starts an idle player, resumes a paused one, pauses a playing one; two toggles from playing give it back |
| Playback.ToggleFlipsButton | old/app_main_v2.2.py:370-377 | each toggle flips what the play/pause button shows |
| Playback.CommandGuards | old/app_main_v2.4.3.py:393-444 | pause and resume act exactly under their guards; stop always leaves the player stopped; start picks the mode's first page; the same code also at `old/app_main_v2.2.py:379-430` |
| Playback.Span | old/app_main_v2.4.3.py:449-457 | `list(range(lo, hi))` |
| Playback.PagesToReadMeaning | old/app_main_v2.4.3.py:449-457 | only_current reads [cur]; the other modes every page from the mode's first page to the last, ascending; the same code also at `old/app_main_v2.2.py:436-443` |
| Playback.Hold | old/app_main_v2.4.3.py:464-466 | the wait ends only when unpaused or stopping |
| Playback.HoldWithoutStop | old/app_main_v2.4.3.py:464-466 | without a stop press the wait sets no stop and leaves presses without one |
| Playback.ListenWithoutStop | old/app_main_v2.4.3.py:478-479 | without a stop press, a press during speech sets no stop and leaves presses without one |
| Playback.PlaySpeaksInOrder | old/app_main_v2.4.3.py:446-494 | whatever is pressed, the four navigation buttons included, the worker speaks pages of the list in list order |
| Playback.NextDuringFirstPageEndsReading | old/app_main_v2.4.3.py:371-376 | pressing next while the first page is spoken stops the reading after that page and moves the current page one on |
| Playback.PlayWithoutStop | old/app_main_v2.4.3.py:446-494 | without a stop or navigation press, pausing loses no page |
| Playback.WorkerReadsPageList | old/app_main_v2.4.3.py:446-494 | a started playback without stop or navigation presses speaks every page of its list that has text, in order, and ends with all flags cleared; the same code also at `old/app_main_v2.2.py:432-480` |
| Playback.TTSPlayerWidget.constructor | old/app_main_v2.4.3.py:250-257 | the playback fields `__init__` sets: idle on the main window's page, in 'current' mode |
| Playback.TTSPlayerWidget.SetReadMode | old/app_main_v2.4.3.py:353-356 | the mode and the specific page are set |
| Playback.TTSPlayerWidget.StartPlayback | old/app_main_v2.4.3.py:393-415 | start_playback as the start command |
| Playback.TTSPlayerWidget.PausePlayback | old/app_main_v2.4.3.py:417-421 | pause_playback as the pause command |
| Playback.TTSPlayerWidget.ResumePlayback | old/app_main_v2.4.3.py:423-427 | resume_playback as the resume command |
| Playback.TTSPlayerWidget.StopPlayback | old/app_main_v2.4.3.py:429-444 | stop_playback as the stop command |
| Playback.TTSPlayerWidget.TogglePlayPause | old/app_main_v2.4.3.py:384-391 | toggle_play_pause as the toggle command |
| Playback.TTSPlayerWidget.Deliver | old/app_main_v2.4.3.py:384-444 | a press applies its button's command to the player, the four navigation buttons included |
| Playback.TTSPlayerWidget.HoldWhilePaused | old/app_main_v2.4.3.py:464-466 | the pause wait consumes exactly the presses of its specification and ends as it does |
| Playback.TTSPlayerWidget.PlayPage | old/app_main_v2.4.3.py:461-485 | one turn of the page loop: either the loop ends with the specification's run, or the specification goes on from the next listed page |
| Playback.TTSPlayerWidget.GoToFirstPage | old/app_main_v2.4.3.py:358-362 | first page |
| Playback.TTSPlayerWidget.GoToPrevPage | old/app_main_v2.4.3.py:364-369 | previous page |
| Playback.TTSPlayerWidget.GoToNextPage | old/app_main_v2.4.3.py:371-376 | next page |
| Playback.TTSPlayerWidget.GoToLastPage | old/app_main_v2.4.3.py:378-382 | last page |
| Playback.TTSPlayerWidget.PlaybackWorker | old/app_main_v2.4.3.py:446-494 | the worker's loops produce exactly the worker specification; the same code also at `old/app_main_v2.2.py:432-480` |
| AppMainV22.StoredFlags | old/app_main_v2.2.py:287-290 | the two stored flags are complementary, female set exactly for the female type |
| AppMainV22.StoredVoiceType | old/app_main_v2.2.py:277-285 | the female flag alone decides the type |
| AppMainV22.VoiceTypeRoundTrip | old/app_main_v2.2.py:277-290 | save then load gives back the voice type |
| AppMainV22.ButtonsFollowPlayback | old/app_main_v2.2.py:323-337 | pause is shown only while playing, each toggle flips it, a stop ends playing |
| AppMainV22.TTSPlayerWidget.constructor | old/app_main_v2.2.py:198-220 | after load_settings and init_tts_engine: the voice type the stored flags give, an engine exactly when it starts, and the voice the type selects when the engine started and has voices |
| AppMainV22.TTSPlayerWidget.LoadSettings | old/app_main_v2.2.py:277-285 | the type follows the stored female flag |
| AppMainV22.TTSPlayerWidget.SaveSettings | old/app_main_v2.2.py:287-290 | the stored flags encode the type |
| AppMainV22.TTSPlayerWidget.ApplyVoiceSettings | old/app_main_v2.2.py:292-321 | no engine or no voices changes nothing; else the first voice with the target word, else the first voice |
| AppMainV22.TTSPlayerWidget.UpdateButtons | old/app_main_v2.2.py:323-337 | navigation is enabled exactly while not playing; pause shown exactly while playing unpaused |
| AppMainV22.TTSPlayerWidget.StartPlayback | old/app_main_v2.2.py:379-403 | without an engine it tries to start one and gives up if that fails; otherwise the start command |
| AppMainV243.RussianVoiceCountsAsMale | old/app_main_v2.4.3.py:318-342 | a voice with "russian" in its name answers a male request |
| AppMainV243.FemaleVoiceAnswersMaleRequest | old/app_main_v2.4.3.py:318-342 | a female voice listed first answers a male request |
| AppMainV243.TTSPlayerWidget.constructor | old/app_main_v2.4.3.py:245-264 | after load_settings and apply_voice_settings: the stored flags, an idle player on the main window's page, and the voice the flags select when the engine has voices |
| AppMainV243.TTSPlayerWidget.LoadSettings | old/app_main_v2.4.3.py:310-316 | the stored flags are taken |
| AppMainV243.TTSPlayerWidget.ApplyVoiceSettings | old/app_main_v2.4.3.py:318-342 | the first voice matching the flag's keywords, else the first; no voices leave the voice as it was; the voice chosen is a listed one |
| AppMainV243.TTSPlayerWidget.UpdateButtons | old/app_main_v2.4.3.py:344-351 | pause shown exactly while playing unpaused |
| AppMainV250.CommandGuards | old/app_main_v2.5.0.py:282-329 | start acts only when idle; pause exactly when playing unpaused, and is offered exactly then; stop always stops |
| AppMainV250.Hold | old/app_main_v2.5.0.py:340-341 | the wait ends only when unpaused or stopping |
| AppMainV250.HoldWithoutStop | old/app_main_v2.5.0.py:340-341 | a wait given no stop press leaves no stop requested and the remaining presses without a stop |
| AppMainV250.Listen | old/app_main_v2.5.0.py:358-359 | a press arriving while a page is spoken keeps the page count |
| AppMainV250.PlayWithoutStop | old/app_main_v2.5.0.py:331-369 | without a stop, a run not left waiting speaks the pages from the start page in order up to the first page without text |
| AppMainV250.PausedReadingNeverResumes | old/app_main_v2.5.0.py:282-341 | as written, play is offered while paused but changes nothing, so without a stop the worker waits for ever |
| AppMainV250.PlayEndsPause | old/app_main_v2.5.0.py:282-341 | with play resuming a pause, the offered button ends the wait |
| AppMainV250.PauseThenPlayExample | old/app_main_v2.5.0.py:331-369 | two pages, pause then play: as written one page then waiting for ever; corrected, both pages and idle |
| AppMainV250.TTSPlayerWidget.constructor | old/app_main_v2.5.0.py:185-207 | after load_voice_settings: an idle player on the main window's page and the voice the stored gender selects when the engine has voices |
| AppMainV250.TTSPlayerWidget.LoadVoiceSettings | old/app_main_v2.5.0.py:255-280 | the shared heuristic with the female or male keywords; no voices leave the voice unset |
| AppMainV250.TTSPlayerWidget.UpdateButtons | old/app_main_v2.5.0.py:282-293 | play enabled when not playing or paused, pause when playing unpaused, stop while playing |
| AppMainV250.TTSPlayerWidget.StartPlayback | old/app_main_v2.5.0.py:295-309 | start_playback as the start command |
| AppMainV250.TTSPlayerWidget.PlayOrResume | old/app_main_v2.5.0.py:295-309 | the corrected play button: resume a pause, else start |
| AppMainV250.TTSPlayerWidget.PausePlayback | old/app_main_v2.5.0.py:311-315 | pause_playback as the pause command |
| AppMainV250.TTSPlayerWidget.StopPlayback | old/app_main_v2.5.0.py:317-329 | stop_playback as the stop command |
| AppMainV250.TTSPlayerWidget.Press | old/app_main_v2.5.0.py:295-329 | a press applies its button's command to the player |
| AppMainV250.TTSPlayerWidget.HoldWhilePaused | old/app_main_v2.5.0.py:340-341 | the pause wait consumes exactly the presses of its specification and ends as it does |
| AppMainV250.TTSPlayerWidget.PlayPage | old/app_main_v2.5.0.py:336-361 | one turn of the page loop: either the loop ends with the specification's run, or the specification goes on from the next page; the page count is kept |
| AppMainV250.TTSPlayerWidget.PlayDocument | old/app_main_v2.5.0.py:331-369 | the worker's loop produces exactly the worker specification, the `finally` clearing playing and paused |
| AppMainV250.ToggleCursorSpec | old/app_main_v2.5.0.py:1155-1169 | the mode flips and the selection is cleared |
| AppMainV250.ToggleCursorTwice | old/app_main_v2.5.0.py:1155-1169 | two toggles give back the mode |
| AppMainV250.SelectionView.constructor | old/app_main_v2.5.0.py:477-483 | a new viewer is in text-selection mode with nothing selected |
| AppMainV250.SelectionView.ClearSelection | old/app_main_v2.5.0.py:1224-1230 | the selection is cleared, the mode kept |
| AppMainV250.SelectionView.ToggleCursorMode | old/app_main_v2.5.0.py:1155-1169 | toggle_cursor_mode as specified |
| LoopPlayer.StartPage | app_main.py:203-215 | the widget always has a start page; start mode reads from 0, current from the current page; the dialog's specific page is taken exactly when it is an integer naming a page |
| LoopPlayer.PlayPauseMeaning | app_main_v2.py:239-261 | from stopped, a start at the start page (the dialog unchanged on a bad page field); paused resumes; playing pauses in the widget and is left alone in the dialog, whose button is at `app_main.py:197-229` |
| LoopPlayer.ApplyKeepsConsistent | app_main.py:197-244 | every press keeps "paused implies playing" and the page count; only a goto or a start moves the page |
| LoopPlayer.GotoStaysInDocument | app_main.py:146-151 | a goto takes exactly the pages of the document |
| LoopPlayer.DialogGotoThenSpecificStart | app_main.py:146-151 | the number written into the page field makes a specific start begin on that page |
| LoopPlayer.WidgetNavigation | app_main_v2.py:228-237 | first and last reach the ends; previous and next move one page only inside the document |
| LoopPlayer.DialogButtons | app_main.py:197-244 | after start or resume only pause and stop are enabled, after pause start is, after stop only start |
| LoopPlayer.GenderKeywords | app_main_v2.py:212-222 | at most the two keywords |
| LoopPlayer.GenderKeywordsMeaning | app_main.py:182-195 | a voice matches exactly when the male choice is set and its name contains "male" or the female choice and "female"; so the male choice also takes female voices |
| LoopPlayer.LoopSpeaksInOrder | app_main.py:246-260 | whatever is pressed, pages with text are spoken in ascending order from the first |
| LoopPlayer.LoopWithoutStop | app_main_v2.py:277-289 | without a stop, every page with text from the start is spoken and the current page ends just past the last spoken |
| LoopPlayer.WorkerReadsToEnd | app_main.py:246-260 | a worker nobody stops reads every page with text to the end, then stops the player |
| LoopPlayer.LoopKeepsConsistent | app_main.py:246-260 | the loop keeps "paused implies playing" |
| LoopPlayer.WorkerEndsStopped | app_main_v2.py:277-289 | the worker always ends stopped and unpaused |
| LoopPlayer.StopEndsReading | app_main.py:246-260 | a stop during the first page ends the reading after that page |
| AppMainV2.ApplyReadMode | app_main_v2.py:130-148 | start and current reset the specific page; specific takes the number minus one; a non-integer keeps mode and page and warns |
| AppMainV2.EntryIsNotRangeChecked | app_main_v2.py:136-141 | every integer typed is taken, including 0 and numbers past the last page |
| AppMainV2.TTSPlayerWidget.constructor | app_main_v2.py:151-166 | a new widget is idle in current mode |
| AppMainV2.TTSPlayerWidget.GetVoiceId | app_main_v2.py:212-222 | the heuristic with the stored gender choices |
| AppMainV2.TTSPlayerWidget.SetReadMode | app_main_v2.py:224-226 | only the mode and page change |
| AppMainV2.TTSPlayerWidget.ApplySettings | app_main_v2.py:130-148 | the choices are stored, then the read mode as specified |
| AppMainV2.TTSPlayerWidget.NavigatePage | app_main_v2.py:228-237 | navigate_page as a goto to the computed target |
| AppMainV2.TTSPlayerWidget.UpdatePlayerButtons | app_main_v2.py:200-204 | the label shows pause exactly while playing unpaused |
| AppMainV2.TTSPlayerWidget.PlayPauseResume | app_main_v2.py:239-261 | the chosen voice is set, then the widget's play command |
| AppMainV2.TTSPlayerWidget.StopSpeech | app_main_v2.py:266-271 | stop_speech as the widget's stop |
| AppMainV2.TTSPlayerWidget.Press | app_main_v2.py:239-271 | a press while a page is spoken applies the widget's command, the stored voice choice untouched |
| AppMainV2.TTSPlayerWidget.RunTtsLoop | app_main_v2.py:277-289 | the loop produces exactly the worker specification |
| AppMain.TTSPlayerDialog.constructor | app_main.py:61-75 | a new dialog reads from the current page, whose 1-based number fills the field, with every button enabled; load_settings then checks the male voice button unless the stored voice's name lacks 'male', and that check makes the engine's voice and the stored id the first voice named with 'male', when there is one |
| AppMain.StoredVoiceIndex | app_main.py:155-158 | the first voice whose id is the stored one, or none when no voice has it |
| AppMain.LoadedButton | app_main.py:153-165 | the female button is never the one checked, because 'male' occurs inside 'female', so a saved female choice comes back as the male button; neither is checked exactly when the stored voice's name lacks 'male' |
| Voices.FemaleContainsMale | app_main.py:159-162 | a string containing "female" contains "male" |
| AppMain.SavedVoice | app_main.py:169-180 | some voice fits the checked buttons exactly when the result is present, and then it agrees with get_voice_id's choice, but without its fall-back to the first voice |
| AppMain.TTSPlayerDialog.LoadSettings | app_main.py:153-165 | the button LoadedButton names is checked, or nothing changes for a stored voice without 'male'; a button that changes state runs save_settings |
| AppMain.TTSPlayerDialog.CheckVoiceButton | app_main.py:133-136 | the voice buttons are exclusive, and a change of either runs save_settings through `toggled` |
| AppMain.TTSPlayerDialog.SaveSettings | app_main.py:167-180 | the first voice fitting a checked button becomes the engine's voice and the stored id; when none fits, nothing changes |
| AppMain.TTSPlayerDialog.ChooseReadMode | app_main.py:114-120 | checking a range button or editing the page field changes only the dialog's read setup, not the voice choice |
| AppMain.TTSPlayerDialog.GetVoiceId | app_main.py:182-195 | the heuristic with the checked gender |
| AppMain.TTSPlayerDialog.SetCurrentReadPage | app_main.py:146-151 | the dialog's goto |
| AppMain.TTSPlayerDialog.PlayPauseResume | app_main.py:197-229 | the voice is set, then the dialog's play command |
| AppMain.TTSPlayerDialog.StartOrResume | app_main.py:202-229 | the rest of play_pause_resume is the dialog's play command, the voice untouched |
| AppMain.TTSPlayerDialog.SelectVoice | app_main.py:199-201 | the engine takes the chosen voice when it has a non-empty id |
| AppMain.TTSPlayerDialog.StartingPage | app_main.py:203-215 | a stopped dialog reads its checked range, None on a bad page field; a running one stays put |
| AppMain.TTSPlayerDialog.PauseSpeech | app_main.py:231-236 | the dialog's pause |
| AppMain.TTSPlayerDialog.StopSpeech | app_main.py:238-244 | the dialog's stop |
| AppMain.TTSPlayerDialog.PageSpoken | app_main.py:254-256 | after a spoken page: the press made meanwhile is applied, then the next page becomes current |
| AppMain.TTSPlayerDialog.Press | app_main.py:197-244 | a press while a page is spoken applies the dialog's command, the voice choice untouched |
| AppMain.TTSPlayerDialog.RunTtsLoop | app_main.py:246-260 | the loop produces exactly the worker specification |
| TtsPlayer.PyIndex | tts_player.py:59 | `queue[i]`: the element for an index in range, negative indices from the end, an error outside |
| TtsPlayer.SetContentSpec | tts_player.py:36-39 | total is the number of texts, current the start page |
| TtsPlayer.Apply | tts_player.py:41-102 | no command changes the content or the mode |
| TtsPlayer.Status | tts_player.py:104-107 | playing, the 1-based page, the page count |
| TtsPlayer.PageStepsMeaning | tts_player.py:86-102 | next and previous move one page only inside the content, first and last to its ends (last to -1 on empty content), then play |
| TtsPlayer.PlayMeaning | tts_player.py:41-52 | nothing on empty content; otherwise a worker is started or resumed and plays; pause then play resumes |
| TtsPlayer.Hold | tts_player.py:56-57 | the intended wait ends exactly when the pause is lifted or a stop is set |
| TtsPlayer.HoldGentle | tts_player.py:56-57 | under presses that neither stop nor move the page, the intended wait keeps the page, sets no stop, and leaves such presses |
| TtsPlayer.HoldOnlyPauses | tts_player.py:56-57 | a paused worker given only pause presses waits for ever, using all of them |
| TtsPlayer.Listen | tts_player.py:60-61 | a press arriving while a page is spoken keeps the content and the mode and uses exactly one press when one is left |
| TtsPlayer.TurnSpec | tts_player.py:55-67 | one turn keeps the content and either consumes a press or moves on one page |
| TtsPlayer.GentleTurn | tts_player.py:55-67 | in all and from mode, under presses that neither stop nor move the page, a turn speaks the current page and goes on at the next, unless the intended wait holds |
| TtsPlayer.TurnOutsideCurrentMode | tts_player.py:55-67 | as written, a turn in all or from mode on a page of the content always speaks it and goes on |
| TtsPlayer.TurnWithNext | tts_player.py:55-89 | a next pressed while page p is spoken moves the loop on to p + 2 |
| TtsPlayer.ContinueStep | tts_player.py:55-67 | a turn that goes on leads to the loop from the turn's state, presses and log |
| TtsPlayer.LoopStep | tts_player.py:55-70 | the loop read off one pass of its body: one that goes on uses a press or moves a page and leads to the rest of the loop; one that leaves finishes; one that waits for ever or raises ends there |
| TtsPlayer.ReadLoopKeepsLog | tts_player.py:54-70 | the loop only appends to its signals |
| TtsPlayer.ReadsEveryPage | tts_player.py:54-70 | in all and from mode, presses that neither stop nor move leave every page from the current one read once in order, then `finished`; as written it never waits |
| TtsPlayer.CorrectedPauseHolds | tts_player.py:56-57 | with the intended wait, a paused worker reads nothing until the pause is lifted or a stop arrives |
| TtsPlayer.PauseIsIgnoredExample | tts_player.py:54-79 | two pages, pause pressed during the first: as written both are read; with the intended wait the worker waits |
| TtsPlayer.CurrentModeReadsOnePage | tts_player.py:55-67 | in current mode exactly the current page is read |
| TtsPlayer.NextWhileSpeakingSkipsPage | tts_player.py:55-89 | a next pressed while page p is spoken makes p + 2 the next page read |
| TtsPlayer.FromEntryPage | tts_player.py:252-257 | a 1-based entry inside the content becomes the page; anything else keeps it |
| TtsPlayer.FromEntryRoundTrip | tts_player.py:252-257 | saving the displayed page number unchanged keeps the page |
| TtsPlayer.TTSPlayer.constructor | tts_player.py:14-25 | the fields set before the settings load: an idle player with empty content |
| TtsPlayer.CreatePlayer | tts_player.py:14-34 | construction fails exactly when the engine has no voices; otherwise the new player is idle with the voice _load_settings chooses for the female keyword |
| TtsPlayer.TTSPlayer.LoadSettings | tts_player.py:29-34 | the first voice containing "female", else the first; no voices raise |
| TtsPlayer.TTSPlayer.SetContent | tts_player.py:36-39 | set_content as specified |
| TtsPlayer.TTSPlayer.Play | tts_player.py:41-52 | play as specified |
| TtsPlayer.TTSPlayer.Pause | tts_player.py:72-75 | pause sets the pause event and stops playing |
| TtsPlayer.TTSPlayer.Resume | tts_player.py:77-79 | resume clears it and plays |
| TtsPlayer.TTSPlayer.Stop | tts_player.py:81-84 | stop sets the stop event and stops playing |
| TtsPlayer.TTSPlayer.NextPage | tts_player.py:86-89 | next_page as specified |
| TtsPlayer.TTSPlayer.PrevPage | tts_player.py:91-94 | prev_page as specified |
| TtsPlayer.TTSPlayer.FirstPage | tts_player.py:96-98 | first_page as specified |
| TtsPlayer.TTSPlayer.LastPage | tts_player.py:100-102 | last_page as specified |
| TtsPlayer.TTSPlayer.GetStatus | tts_player.py:104-107 | get_status as specified |
| TtsPlayer.TTSPlayer.Press | tts_player.py:72-102 | a press applies its button's command, the voice kept |
| TtsPlayer.TTSPlayer.WaitWhilePaused | tts_player.py:56-57 | the intended wait consumes exactly the presses of its specification and ends as it does |
| TtsPlayer.TTSPlayer.ReadTurn | tts_player.py:56-67 | one pass of the loop body gives exactly the turn specification's state, presses, signals and ending |
| TtsPlayer.TTSPlayer.RunTurn | tts_player.py:55-67 | one pass of the loop body read as one step of the loop's specification, the content and the voice kept |
| TtsPlayer.TTSPlayer.RunWorker | tts_player.py:54-70 | the worker's loop produces exactly the loop specification |
| TtsPlayer.TTSPlayer.SaveSettings | tts_player.py:245-263 | the chosen mode; a valid from-entry becomes the page, anything else is ignored; then the voice |

## Left out

- Threads: `threading.Thread`, `threading.Event` waits with timeouts, `join`, `time.sleep` and every interleaving.
  - Each worker runs sequentially. One press arrives per spoken page or sentence, and a wait consumes presses until one releases it.
  - A second worker started by play after a stop in `app_main.py` and `app_main_v2.py` (two loops at once) is therefore not modelled.
- The speech engine (pyttsx3): `say`, `runAndWait`, the engine's own pause, resume and stop, and voice properties other than the id.
  - Speaking is an event in the run's log.
  - `engineStarts` stands for whether `pyttsx3.init()` succeeds.
- fitz/PyMuPDF: a page is its text (`seq<string>`), search hits are per-page counts, and opening a file is its page count or a failure.
- Floating-point zoom, rectangles, links, pixmaps, printing and the text-selection geometry; the selection is modelled only as the fields that toggle_cursor_mode and clear_selection reset.
- Qt widgets, layouts, labels, status-bar messages, message boxes and input dialogs.
  - A dialog's answer or a confirmation is an input.
  - Signals appear only as events in the log.
- QSettings persistence beyond the values the modelled code reads and writes; the Windows registry file association; `test.py`.
- Python's `str.lower` beyond ASCII and the Russian alphabet.
- `int()` with underscores or non-ASCII digits.
- AppMainV296.Worker: loop reading in 2.9.6 is bounded by a number of passes, since a looping reader nobody stops never ends; runs needing more passes are not modelled.
- The settings dialogs of 2.9.6 and 2.9.3 (the range dialog that calls set_read_mode) and the 2.4.3 `TTSConfigDialog.apply_settings`: their effect is `set_read_mode`/`SetReadMode`, modelled directly.
- The bookmark commands of `app_main.py` and `app_main_v2.py`: outside the modelled core.
- `pyttsx3.init()` in the players' `__init__` is taken to succeed; a failing engine start is modelled only where the source catches it (`init_tts_engine` of 2.2, as `engineStarts`).
- AppMain.TTSPlayerDialog.constructor: when a voice-button change runs save_settings twice (one `toggled` per button), the second run sees the same buttons and repeats the first one's effect; the model runs it once.
- TtsPlayer.ReadLoop: of the exceptions `_run` can meet, only the IndexError of `queue[current]` is modelled (as `Crashed`).
- TtsPlayer.TTSPlayer.LoadSettings: the IndexError raised on an engine without voices is the result `raised`.
- Window.ReaderWindow.GotoBookmarkUnchecked: the exception render_page raises for an index past the open document (`load_page` at `app_main_v2.9.6.py:1465`, `old/app_main_v2.5.0.py:818`), and the page-changed signal and status message it skips (`app_main_v2.9.6.py:1776-1778`), are not modelled; the model keeps only the index that is left set.
- Window.ReaderWindow.GoToSelectedBookmark: only `ValueError` is caught (`app_main_v2.9.6.py:1833`); a page number that does not parse changes nothing. A `KeyError` from `self.bookmarks[page_num]` (line 1832) or an exception from render_page escapes after the page index has been set, and the model leaves the page set as well; the escaping exception and the skipped status message, signal and dialog close are not modelled.
- TtsPlayer.TTSPlayer.SaveSettings: `tts_player.py:193` uses `QIntValidator`, which lines 3-7 do not import, so building the settings dialog raises NameError and show_settings (173-175) never reaches save_settings; the model describes the dialog as evidently intended.

## Findings

| source | as written | input that shows it | evidently intended | confidence | as-written member | corrected member |
|---|---|---|---|---|---|---|
| app_main_v2.9.6.py:198-222 | after a resume the loop sets `page_num = self.current_page`, but the `for` iterator goes on from where it was, so the resumed page is re-read and the page after it is skipped | three pages, pause pressed while page 0 is spoken, resume pressed while the worker waits before page 1: pages 0, 0, 2 are read and page 1 never is | continue the scan from the page re-read | not executed | AppMainV296.SkipAfterResume | AppMainV296.CorrectedReadsEveryPage |
| app_main_v2.9.6.py:1773-1778 | goto_bookmark and go_to_selected_bookmark set the page index without a range check, and bookmarks are shared by every document; render_page's `load_page` then raises on the index, so the page-changed signal and the status message never run and the exception escapes the slot with the index left set | a bookmark saved on page 10 of one book, selected while a three-page book is open, sets page index 9 | move only to a page of the open document, as goto_page does | not executed | Window.ReaderWindow.GotoBookmarkUnchecked, Window.StaleBookmarkLeavesDocument | Window.ReaderWindow.GotoBookmark |
| old/app_main_v2.5.0.py:284-298 | update_buttons enables play while paused, but start_playback returns at once while playing, and nothing else clears the pause | two pages, pause pressed while page 0 is spoken, then play: the worker waits for ever after page 0 | play resumes a paused reading | not executed | AppMainV250.PausedReadingNeverResumes, AppMainV250.PauseThenPlayExample | AppMainV250.PlayEndsPause, AppMainV250.TTSPlayerWidget.PlayOrResume |
| tts_player.py:56-57 | `if pause_event.is_set(): pause_event.wait()` returns at once because the event is already set, so pausing does not stop the reading | two pages, pause pressed while page 0 is spoken: page 1 is read all the same | wait while the pause event is set | not executed | TtsPlayer.PauseIsIgnoredExample | TtsPlayer.CorrectedPauseHolds |
