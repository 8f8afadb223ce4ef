/**
 * The narration player of versions 2.2 and 2.4.3 (old/app_main_v2.2.py and
 * old/app_main_v2.4.3.py), whose playback code is the same in both: the current read
 * page with its navigation buttons, the play/pause toggle, the playing, paused and
 * stop-requested flags, the reading modes and the page list of `playback_worker`.
 *
 * The worker thread is modelled sequentially: a `script` lists the user's commands,
 * one while each page is spoken and, while the worker waits out a pause, one after
 * another until the pause ends. A worker still waiting when the script is used up
 * waits for ever (`blocked`).
 */
module Playback {
  import opened Text
  import ReadingRange

  /** The reading modes: from the current page, only the current page, from the start, from a chosen page. */
  datatype Mode = Current | OnlyCurrent | Start | Specific

  /**
   * The buttons a user can press while the worker runs: the play/pause toggle (a pause
   * or a resume while playing), stop, and in 2.4.3 the four navigation buttons, which
   * `update_buttons` leaves enabled (2.2 disables them during playback).
   */
  datatype Command = Idle | Pause | Resume | Stop | First | Prev | Next | Last

  /** A page handed to the speech engine. */
  datatype Event = Speak(page: int)

  /** The widget's playback fields. */
  datatype Player = Player(
    totalPages: int, currentReadPage: int,
    playing: bool, paused: bool, stopRequested: bool,
    mode: Mode, specificPage: int)

  datatype Run = Run(state: Player, log: seq<Event>, rest: seq<Command>, blocked: bool)

  // ---------------------------------------------------------------- commands

  function StartSpec(s: Player): Player {
    var page := match s.mode
      case Start => 0
      case Specific => s.specificPage
      case _ => s.currentReadPage;
    s.(currentReadPage := page, playing := true, paused := false, stopRequested := false)
  }

  function PauseSpec(s: Player): Player {
    if s.playing && !s.paused then s.(paused := true) else s
  }

  function ResumeSpec(s: Player): Player {
    if s.playing && s.paused then s.(paused := false) else s
  }

  /** stop_playback acts whatever the state. */
  function StopSpec(s: Player): Player {
    s.(stopRequested := true, playing := false, paused := false)
  }

  /** toggle_play_pause: start when not playing, resume when paused, pause otherwise. */
  function ToggleSpec(s: Player): Player {
    if !s.playing then StartSpec(s) else if s.paused then ResumeSpec(s) else PauseSpec(s)
  }

  function Apply(s: Player, c: Command): Player {
    match c
    case Idle => s
    case Pause => PauseSpec(s)
    case Resume => ResumeSpec(s)
    case Stop => StopSpec(s)
    case First => FirstSpec(s)
    case Prev => PrevSpec(s)
    case Next => NextSpec(s)
    case Last => LastSpec(s)
  }

  /** A move of the read page stops a running playback. */
  function StopIfPlaying(s: Player): Player {
    if s.playing then StopSpec(s) else s
  }

  function FirstSpec(s: Player): Player {
    StopIfPlaying(s.(currentReadPage := 0))
  }

  function PrevSpec(s: Player): Player {
    if s.currentReadPage > 0 then StopIfPlaying(s.(currentReadPage := s.currentReadPage - 1)) else s
  }

  function NextSpec(s: Player): Player {
    if s.currentReadPage < s.totalPages - 1 then StopIfPlaying(s.(currentReadPage := s.currentReadPage + 1)) else s
  }

  function LastSpec(s: Player): Player {
    StopIfPlaying(s.(currentReadPage := s.totalPages - 1))
  }

  /**
   * The navigation buttons keep the read page in the document and move it by exactly
   * one page, or to the first or last page; a move stops playback, and a move that is
   * refused changes nothing.
   */
  lemma NavigationMeaning(s: Player)
    requires 0 <= s.currentReadPage < s.totalPages
    ensures var t := PrevSpec(s);
      0 <= t.currentReadPage < s.totalPages &&
      (s.currentReadPage > 0 ==> t.currentReadPage == s.currentReadPage - 1 && !t.playing) &&
      (s.currentReadPage == 0 ==> t == s)
    ensures var t := NextSpec(s);
      0 <= t.currentReadPage < s.totalPages &&
      (s.currentReadPage < s.totalPages - 1 ==> t.currentReadPage == s.currentReadPage + 1 && !t.playing) &&
      (s.currentReadPage == s.totalPages - 1 ==> t == s)
    ensures FirstSpec(s).currentReadPage == 0 && !FirstSpec(s).playing
    ensures LastSpec(s).currentReadPage == s.totalPages - 1 && !LastSpec(s).playing
    ensures s.playing ==> PrevSpec(s) == s || PrevSpec(s).stopRequested
    ensures NextSpec(s).totalPages == s.totalPages && PrevSpec(s).totalPages == s.totalPages
  {
  }

  /**
   * The toggle starts an idle player, resumes a paused one and pauses a playing one;
   * pausing and toggling again gives back the playing state.
   */
  lemma ToggleMeaning(s: Player)
    ensures !s.playing ==> ToggleSpec(s).playing && !ToggleSpec(s).paused && !ToggleSpec(s).stopRequested
    ensures s.playing && s.paused ==> ToggleSpec(s) == s.(paused := false)
    ensures s.playing && !s.paused ==> ToggleSpec(s) == s.(paused := true) && ToggleSpec(ToggleSpec(s)) == s
    ensures ToggleSpec(s).playing
  {
  }

  /** update_buttons: the play/pause button shows the pause symbol exactly while playing and not paused. */
  predicate ShowsPause(s: Player) {
    s.playing && !s.paused
  }

  /** Each press of the play/pause button flips what the button shows. */
  lemma ToggleFlipsButton(s: Player)
    ensures ShowsPause(ToggleSpec(s)) <==> !ShowsPause(s)
  {
  }

  /** Pause and resume act only under their guards; stop always leaves the player stopped. */
  lemma CommandGuards(s: Player)
    ensures PauseSpec(s) != s <==> s.playing && !s.paused
    ensures ResumeSpec(s) != s <==> s.playing && s.paused
    ensures var t := StopSpec(s); !t.playing && !t.paused && t.stopRequested
    ensures StartSpec(s).mode == Start ==> StartSpec(s).currentReadPage == 0
    ensures s.mode == Specific ==> StartSpec(s).currentReadPage == s.specificPage
    ensures s.mode == Current || s.mode == OnlyCurrent ==> StartSpec(s).currentReadPage == s.currentReadPage
  {
  }

  // ---------------------------------------------------------------- the page list and the worker

  /** The pages lo, lo+1, ..., hi-1 (`list(range(lo, hi))`). */
  function Span(lo: int, hi: int): (r: seq<int>)
    ensures |r| == ReadingRange.Max(0, hi - lo)
    ensures forall k | 0 <= k < |r| :: r[k] == lo + k
    decreases hi - lo
  {
    if lo >= hi then [] else [lo] + Span(lo + 1, hi)
  }

  /** `pages_to_read` of playback_worker for the player's mode. */
  function PagesToRead(s: Player): seq<int> {
    match s.mode
    case OnlyCurrent => [s.currentReadPage]
    case Start => Span(0, s.totalPages)
    case Specific => Span(s.specificPage, s.totalPages)
    case Current => Span(s.currentReadPage, s.totalPages)
  }

  /**
   * The page list holds exactly the current page in 'only_current' mode and otherwise
   * every page from the mode's first page to the last page of the document, ascending.
   */
  lemma PagesToReadMeaning(s: Player, p: int)
    ensures s.mode == OnlyCurrent ==> PagesToRead(s) == [s.currentReadPage]
    ensures s.mode != OnlyCurrent ==> (
      var lo := if s.mode == Start then 0 else if s.mode == Specific then s.specificPage else s.currentReadPage;
      (p in PagesToRead(s) <==> lo <= p < s.totalPages) &&
      forall k | 0 <= k < |PagesToRead(s)| - 1 :: PagesToRead(s)[k] + 1 == PagesToRead(s)[k + 1])
  {
    if s.mode != OnlyCurrent {
      var lo := if s.mode == Start then 0 else if s.mode == Specific then s.specificPage else s.currentReadPage;
      var r := PagesToRead(s);
      if lo <= p < s.totalPages {
        assert r[p - lo] == p;
      }
    }
  }

  /** `while self.is_paused and not self.stop_requested`: commands arrive until the pause ends or a stop is asked for. */
  function Hold(s: Player, script: seq<Command>): (r: (Player, seq<Command>, bool))
    ensures r.2 ==> !r.0.paused || r.0.stopRequested
    decreases |script|
  {
    if !(s.paused && !s.stopRequested) then (s, script, true)
    else if script == [] then (s, script, false)
    else Hold(Apply(s, script[0]), script[1..])
  }

  /** The command, if any is left, that the user gives while a page is spoken. */
  function Listen(s: Player, script: seq<Command>): (Player, seq<Command>) {
    if script == [] then (s, script) else (Apply(s, script[0]), script[1..])
  }

  /**
   * The `for page_num in pages_to_read` loop from position i: stop check, the wait
   * while paused, a second stop check, then speaking a page with text.
   */
  function Play(s: Player, list: seq<int>, i: nat, texts: seq<string>, script: seq<Command>, log: seq<Event>): (r: Run)
    requires i <= |list|
    decreases |list| - i
  {
    if i == |list| || s.stopRequested then Run(s, log, script, false)
    else
      var h := Hold(s, script);
      if !h.2 then Run(h.0, log, h.1, true)
      else if h.0.stopRequested then Run(h.0, log, h.1, false)
      else if ReadingRange.RawPageText(texts, list[i]) == "" then Play(h.0, list, i + 1, texts, h.1, log)
      else
        var l := Listen(h.0.(currentReadPage := list[i]), h.1);
        Play(l.0, list, i + 1, texts, l.1, log + [Speak(list[i])])
  }

  /** playback_worker: the page loop, then the `finally` clause that clears all three flags. */
  function WorkerSpec(s: Player, texts: seq<string>, script: seq<Command>): Run {
    var r := Play(s, PagesToRead(s), 0, texts, script, []);
    if r.blocked then r
    else r.(state := r.state.(playing := false, paused := false, stopRequested := false))
  }

  /** The pages of list[i..] that have text, in list order: what an uninterrupted run speaks. */
  function Expected(texts: seq<string>, list: seq<int>, i: nat): seq<Event>
    requires i <= |list|
    decreases |list| - i
  {
    if i == |list| then []
    else (if ReadingRange.RawPageText(texts, list[i]) == "" then [] else [Speak(list[i])]) + Expected(texts, list, i + 1)
  }

  /** The user presses neither stop nor a navigation button, which stops a playing reading. */
  predicate NoStop(script: seq<Command>) {
    forall k | 0 <= k < |script| :: script[k].Idle? || script[k].Pause? || script[k].Resume?
  }

  /**
   * Whatever the user presses, navigation included, the worker speaks pages of the list
   * in list order, never one out of turn.
   */
  lemma {:induction false} PlaySpeaksInOrder(s: Player, list: seq<int>, i: nat, texts: seq<string>, script: seq<Command>, log: seq<Event>)
    requires i <= |list|
    ensures Play(s, list, i, texts, script, log).log <= log + Expected(texts, list, i)
    decreases |list| - i
  {
    if i < |list| && !s.stopRequested {
      var h := Hold(s, script);
      if h.2 && !h.0.stopRequested {
        var here := if ReadingRange.RawPageText(texts, list[i]) == "" then [] else [Speak(list[i])];
        AppendAssociates(log, here, Expected(texts, list, i + 1));
        if ReadingRange.RawPageText(texts, list[i]) == "" {
          PlaySpeaksInOrder(h.0, list, i + 1, texts, h.1, log);
        } else {
          var l := Listen(h.0.(currentReadPage := list[i]), h.1);
          PlaySpeaksInOrder(l.0, list, i + 1, texts, l.1, log + here);
        }
      }
    }
  }

  /** Without a stop press, holding for a resume sets no stop and leaves presses without one. */
  lemma {:induction false} HoldWithoutStop(s: Player, script: seq<Command>)
    requires !s.stopRequested && NoStop(script)
    ensures var h := Hold(s, script);
      !h.0.stopRequested && NoStop(h.1)
    decreases |script|
  {
    if s.paused && script != [] {
      assert NoStop(script[1..]) by {
        forall k | 0 <= k < |script[1..]| ensures script[1..][k].Idle? || script[1..][k].Pause? || script[1..][k].Resume? {
          assert script[1..][k] == script[k + 1];
        }
      }
      HoldWithoutStop(Apply(s, script[0]), script[1..]);
    }
  }

  lemma ListenWithoutStop(s: Player, script: seq<Command>)
    requires !s.stopRequested && NoStop(script)
    ensures !Listen(s, script).0.stopRequested && NoStop(Listen(s, script).1)
  {
    if script != [] {
      forall k | 0 <= k < |script[1..]| ensures script[1..][k].Idle? || script[1..][k].Pause? || script[1..][k].Resume? {
        assert script[1..][k] == script[k + 1];
      }
    }
  }

  lemma AppendAssociates(a: seq<Event>, b: seq<Event>, c: seq<Event>)
    ensures a + b + c == a + (b + c)
  {
  }

  /**
   * Pausing loses no page: without a stop or a navigation press, a run that is not left waiting speaks every
   * page of the list that has text, in order.
   */
  lemma {:induction false} PlayWithoutStop(s: Player, list: seq<int>, i: nat, texts: seq<string>, script: seq<Command>, log: seq<Event>)
    requires i <= |list| && !s.stopRequested && NoStop(script)
    ensures var r := Play(s, list, i, texts, script, log);
      !r.blocked ==> r.log == log + Expected(texts, list, i)
    decreases |list| - i
  {
    if i < |list| {
      var h := Hold(s, script);
      HoldWithoutStop(s, script);
      if h.2 {
        var here := if ReadingRange.RawPageText(texts, list[i]) == "" then [] else [Speak(list[i])];
        AppendAssociates(log, here, Expected(texts, list, i + 1));
        if ReadingRange.RawPageText(texts, list[i]) == "" {
          PlayWithoutStop(h.0, list, i + 1, texts, h.1, log);
        } else {
          var l := Listen(h.0.(currentReadPage := list[i]), h.1);
          ListenWithoutStop(h.0.(currentReadPage := list[i]), h.1);
          PlayWithoutStop(l.0, list, i + 1, texts, l.1, log + here);
        }
      }
    }
  }

  /**
   * A started playback without stop or navigation presses, however often paused and resumed, speaks every
   * page of its page list that has text, in order, and ends with all flags cleared;
   * with stops, what it speaks is a beginning of that.
   */
  lemma WorkerReadsPageList(s0: Player, texts: seq<string>, script: seq<Command>)
    ensures var s := StartSpec(s0);
      var r := WorkerSpec(s, texts, script);
      r.log <= Expected(texts, PagesToRead(s), 0) &&
      (!r.blocked ==> !r.state.playing && !r.state.paused && !r.state.stopRequested) &&
      (NoStop(script) && !r.blocked ==> r.log == Expected(texts, PagesToRead(s), 0))
  {
    var s := StartSpec(s0);
    PlaySpeaksInOrder(s, PagesToRead(s), 0, texts, script, []);
    if NoStop(script) {
      PlayWithoutStop(s, PagesToRead(s), 0, texts, script, []);
    }
  }

  /**
   * A next pressed while the first page of a started playback is spoken ends the
   * reading after that page; the `finally` clears the flags but leaves the read page
   * on the page navigated to, one past the page spoken.
   */
  lemma NextDuringFirstPageEndsReading(s0: Player, texts: seq<string>, rest: seq<Command>)
    requires var s := StartSpec(s0);
      PagesToRead(s) != [] && ReadingRange.RawPageText(texts, PagesToRead(s)[0]) != ""
      && PagesToRead(s)[0] < s.totalPages - 1
    ensures var s := StartSpec(s0);
      var r := WorkerSpec(s, texts, [Next] + rest);
      !r.blocked && r.log == [Speak(PagesToRead(s)[0])] && r.rest == rest
      && r.state.currentReadPage == PagesToRead(s)[0] + 1
      && !r.state.playing && !r.state.paused && !r.state.stopRequested
  {
    var s := StartSpec(s0);
    var list := PagesToRead(s);
    assert Hold(s, [Next] + rest) == (s, [Next] + rest, true);
    assert ([Next] + rest)[1..] == rest;
    var spoken := NextSpec(s.(currentReadPage := list[0]));
    assert spoken.stopRequested && spoken.currentReadPage == list[0] + 1;
    assert Play(s, list, 0, texts, [Next] + rest, []) == Play(spoken, list, 1, texts, rest, [Speak(list[0])]);
  }

  // ---------------------------------------------------------------- the widget

  class TTSPlayerWidget {
    var totalPages: int
    var currentReadPage: int
    var isPlaying: bool
    var isPaused: bool
    var stopRequested: bool
    var readMode: Mode
    var specificPage: int

    function State(): Player
      reads this
    {
      Player(totalPages, currentReadPage, isPlaying, isPaused, stopRequested, readMode, specificPage)
    }

    /** A new player is idle on the main window's page, in 'current' mode. */
    constructor(totalPages: int, currentPage: int)
      ensures State() == Player(totalPages, currentPage, false, false, false, Current, 0)
    {
      this.totalPages := totalPages;
      currentReadPage := currentPage;
      isPlaying, isPaused, stopRequested := false, false, false;
      readMode, specificPage := Current, 0;
    }

    method SetReadMode(mode: Mode, page: int)
      modifies this
      ensures State() == old(State()).(mode := mode, specificPage := page)
    {
      readMode := mode;
      specificPage := page;
    }

    method StartPlayback()
      modifies this
      ensures State() == StartSpec(old(State()))
    {
      match readMode {
        case Start => currentReadPage := 0;
        case Specific => currentReadPage := specificPage;
        case _ =>
      }
      isPlaying, isPaused, stopRequested := true, false, false;
    }

    method PausePlayback()
      modifies this
      ensures State() == PauseSpec(old(State()))
    {
      if isPlaying && !isPaused {
        isPaused := true;
      }
    }

    method ResumePlayback()
      modifies this
      ensures State() == ResumeSpec(old(State()))
    {
      if isPlaying && isPaused {
        isPaused := false;
      }
    }

    method StopPlayback()
      modifies this
      ensures State() == StopSpec(old(State()))
    {
      stopRequested, isPlaying, isPaused := true, false, false;
    }

    method TogglePlayPause()
      modifies this
      ensures State() == ToggleSpec(old(State()))
    {
      if !isPlaying {
        StartPlayback();
      } else if isPaused {
        ResumePlayback();
      } else {
        PausePlayback();
      }
    }

    method GoToFirstPage()
      modifies this
      ensures State() == FirstSpec(old(State()))
    {
      currentReadPage := 0;
      if isPlaying {
        StopPlayback();
      }
    }

    method GoToPrevPage()
      modifies this
      ensures State() == PrevSpec(old(State()))
    {
      if currentReadPage > 0 {
        currentReadPage := currentReadPage - 1;
        if isPlaying {
          StopPlayback();
        }
      }
    }

    method GoToNextPage()
      modifies this
      ensures State() == NextSpec(old(State()))
    {
      if currentReadPage < totalPages - 1 {
        currentReadPage := currentReadPage + 1;
        if isPlaying {
          StopPlayback();
        }
      }
    }

    method GoToLastPage()
      modifies this
      ensures State() == LastSpec(old(State()))
    {
      currentReadPage := totalPages - 1;
      if isPlaying {
        StopPlayback();
      }
    }

    method Deliver(c: Command)
      modifies this
      ensures State() == Apply(old(State()), c)
    {
      match c {
        case Idle =>
        case Pause => PausePlayback();
        case Resume => ResumePlayback();
        case Stop => StopPlayback();
        case First => GoToFirstPage();
        case Prev => GoToPrevPage();
        case Next => GoToNextPage();
        case Last => GoToLastPage();
      }
    }

    /** The wait while paused. */
    method HoldWhilePaused(script: seq<Command>, k: nat) returns (k2: nat, released: bool)
      requires k <= |script|
      modifies this
      ensures k <= k2 <= |script|
      ensures (State(), script[k2..], released) == Hold(old(State()), script[k..])
    {
      k2 := k;
      while isPaused && !stopRequested && k2 < |script|
        invariant k <= k2 <= |script|
        invariant Hold(State(), script[k2..]) == Hold(old(State()), script[k..])
        decreases |script| - k2
      {
        assert script[k2..][1..] == script[k2 + 1..];
        Deliver(script[k2]);
        k2 := k2 + 1;
      }
      released := !(isPaused && !stopRequested);
    }

    /** One turn of the page loop, after its first stop check. */
    method PlayPage(list: seq<int>, i: nat, texts: seq<string>, script: seq<Command>, k: nat, log: seq<Event>)
      returns (k2: nat, log2: seq<Event>, leave: bool, blocked: bool)
      requires i < |list| && k <= |script| && !stopRequested
      modifies this
      ensures k <= k2 <= |script|
      ensures var r := Play(old(State()), list, i, texts, script[k..], log);
        if leave then Run(State(), log2, script[k2..], blocked) == r
        else !blocked && Play(State(), list, i + 1, texts, script[k2..], log2) == r
    {
      var released;
      k2, released := HoldWhilePaused(script, k);
      log2 := log;
      if !released {
        return k2, log2, true, true;
      }
      if stopRequested {
        return k2, log2, true, false;
      }
      leave, blocked := false, false;
      var text := ReadingRange.RawPageText(texts, list[i]);
      if text != "" {
        currentReadPage := list[i];
        log2 := log2 + [Speak(list[i])];
        if k2 < |script| {
          assert script[k2..][1..] == script[k2 + 1..];
          Deliver(script[k2]);
          k2 := k2 + 1;
        }
      }
    }

    /** playback_worker, the worker thread's body. */
    method PlaybackWorker(texts: seq<string>, script: seq<Command>) returns (log: seq<Event>, blocked: bool)
      modifies this
      ensures var r := WorkerSpec(old(State()), texts, script);
        State() == r.state && log == r.log && blocked == r.blocked
    {
      var list := PagesToRead(State());
      var i, k := 0, 0;
      log, blocked := [], false;
      ghost var goal := Play(State(), list, 0, texts, script, []);
      while i < |list|
        invariant 0 <= i <= |list| && 0 <= k <= |script| && !blocked
        invariant Play(State(), list, i, texts, script[k..], log) == goal
        decreases |list| - i
      {
        if stopRequested {
          break;
        }
        var leave;
        k, log, leave, blocked := PlayPage(list, i, texts, script, k, log);
        if leave {
          break;
        }
        i := i + 1;
      }
      if blocked {
        return;
      }
      isPlaying, isPaused, stopRequested := false, false, false;
    }
  }
}
