/**
 * Version 2.5.0 of the reader (old/app_main_v2.5.0.py): a narration player with play,
 * pause and stop buttons whose worker reads from the current page to the end of the
 * document and stops at the first page without text, and the viewer's switch between
 * text selection and scrolling.
 *
 * The worker thread is modelled sequentially: a `script` lists the buttons the user
 * presses, one while each page is spoken and, while the worker waits out a pause, one
 * after another until the pause ends. A worker still waiting when the script is used
 * up waits for ever (`blocked`).
 */
module AppMainV250 {
  import opened Text
  import Voices
  import ReadingRange

  /** The player's buttons, and no press at all. */
  datatype Command = Idle | Play | Pause | Stop

  datatype Event = Speak(page: int)

  datatype Player = Player(totalPages: int, currentPage: int, playing: bool, paused: bool, stopRequested: bool)

  datatype Run = Run(state: Player, log: seq<Event>, rest: seq<Command>, blocked: bool)

  /** What the play button does: as written, or also resuming a paused reading. */
  datatype PlayRule = AsWritten | ResumesPause

  /** start_playback: nothing while playing, paused or not. */
  function StartSpec(s: Player): Player {
    if s.playing then s else s.(playing := true, paused := false, stopRequested := false)
  }

  /** The play button as evidently intended: a paused reading resumes. */
  function PlayResumeSpec(s: Player): Player {
    if s.playing && s.paused then s.(paused := false) else StartSpec(s)
  }

  function PauseSpec(s: Player): Player {
    if s.playing && !s.paused then s.(paused := true) else s
  }

  function StopSpec(s: Player): Player {
    s.(stopRequested := true, playing := false, paused := false)
  }

  function Apply(rule: PlayRule, s: Player, c: Command): Player {
    match c
    case Idle => s
    case Play => if rule == AsWritten then StartSpec(s) else PlayResumeSpec(s)
    case Pause => PauseSpec(s)
    case Stop => StopSpec(s)
  }

  datatype Buttons = Buttons(play: bool, pause: bool, stop: bool)

  /** update_buttons. */
  function EnabledButtons(s: Player): Buttons {
    Buttons(!s.playing || s.paused, s.playing && !s.paused, s.playing)
  }

  /**
   * Start acts only when nothing plays, pause only while playing and not paused, and
   * stop always; pause is offered exactly when it acts, stop exactly while playing.
   */
  lemma CommandGuards(s: Player)
    ensures StartSpec(s) != s ==> !s.playing
    ensures !s.playing ==> StartSpec(s).playing && !StartSpec(s).paused && !StartSpec(s).stopRequested
    ensures PauseSpec(s) != s <==> s.playing && !s.paused
    ensures EnabledButtons(s).pause <==> PauseSpec(s) != s
    ensures !StopSpec(s).playing && !StopSpec(s).paused && StopSpec(s).stopRequested
  {
  }

  /** `while self.is_paused and not self.stop_requested`: presses arrive until the pause ends or a stop is asked for. */
  function Hold(rule: PlayRule, s: Player, script: seq<Command>): (r: (Player, seq<Command>, bool))
    ensures r.2 ==> !r.0.paused || r.0.stopRequested
    ensures r.0.totalPages == s.totalPages
    decreases |script|
  {
    if !(s.paused && !s.stopRequested) then (s, script, true)
    else if script == [] then (s, script, false)
    else Hold(rule, Apply(rule, s, script[0]), script[1..])
  }

  function Listen(rule: PlayRule, s: Player, script: seq<Command>): (r: (Player, seq<Command>))
    ensures r.0.totalPages == s.totalPages
  {
    if script == [] then (s, script) else (Apply(rule, s, script[0]), script[1..])
  }

  /**
   * The loop `for page_num in range(current_page, total_pages)` from page `it`: stop
   * check, the wait while paused, a second stop check, then speaking a page with text or
   * leaving the loop at a page without.
   */
  function ReadPages(rule: PlayRule, s: Player, it: int, texts: seq<string>, script: seq<Command>, log: seq<Event>): (r: Run)
    decreases s.totalPages - it
  {
    if it >= s.totalPages || s.stopRequested then Run(s, log, script, false)
    else
      var h := Hold(rule, s, script);
      if !h.2 then Run(h.0, log, h.1, true)
      else if h.0.stopRequested then Run(h.0, log, h.1, false)
      else if ReadingRange.RawPageText(texts, it) == "" then Run(h.0, log, h.1, false)
      else
        var l := Listen(rule, h.0.(currentPage := it), h.1);
        ReadPages(rule, l.0, it + 1, texts, l.1, log + [Speak(it)])
  }

  /** play_document: the page loop, then the `finally` clause (which leaves stop_requested as it is). */
  function PlayDocumentSpec(rule: PlayRule, s: Player, texts: seq<string>, script: seq<Command>): Run {
    var r := ReadPages(rule, s, s.currentPage, texts, script, []);
    if r.blocked then r else r.(state := r.state.(playing := false, paused := false))
  }

  /** The pages from `it` on, up to the first one without text: what an uninterrupted run speaks. */
  function Expected(texts: seq<string>, it: int, total: int): seq<Event>
    decreases total - it
  {
    if it >= total || ReadingRange.RawPageText(texts, it) == "" then []
    else [Speak(it)] + Expected(texts, it + 1, total)
  }

  predicate NoStop(script: seq<Command>) {
    forall k | 0 <= k < |script| :: script[k] != Stop
  }

  lemma TailNoStop(script: seq<Command>)
    requires script != [] && NoStop(script)
    ensures NoStop(script[1..])
  {
    forall k | 0 <= k < |script[1..]| ensures script[1..][k] != Stop {
      assert script[1..][k] == script[k + 1];
    }
  }

  lemma {:induction false} HoldWithoutStop(rule: PlayRule, s: Player, script: seq<Command>)
    requires !s.stopRequested && NoStop(script)
    ensures !Hold(rule, s, script).0.stopRequested && NoStop(Hold(rule, s, script).1)
    decreases |script|
  {
    if s.paused && script != [] {
      TailNoStop(script);
      HoldWithoutStop(rule, Apply(rule, s, script[0]), script[1..]);
    }
  }

  lemma AppendAssociates(a: seq<Event>, b: seq<Event>, c: seq<Event>)
    ensures a + b + c == a + (b + c)
  {
  }

  /**
   * Under either rule, a run without a stop that is not left waiting speaks the pages
   * from the start page on, in order, up to the first page without text.
   */
  lemma {:induction false} PlayWithoutStop(rule: PlayRule, s: Player, it: int, texts: seq<string>, script: seq<Command>, log: seq<Event>)
    requires !s.stopRequested && NoStop(script)
    ensures var r := ReadPages(rule, s, it, texts, script, log);
      !r.blocked ==> r.log == log + Expected(texts, it, s.totalPages)
    decreases s.totalPages - it
  {
    if it < s.totalPages {
      var h := Hold(rule, s, script);
      HoldWithoutStop(rule, s, script);
      if h.2 && ReadingRange.RawPageText(texts, it) != "" {
        var l := Listen(rule, h.0.(currentPage := it), h.1);
        if h.1 != [] {
          TailNoStop(h.1);
        }
        PlayWithoutStop(rule, l.0, it + 1, texts, l.1, log + [Speak(it)]);
        AppendAssociates(log, [Speak(it)], Expected(texts, it + 1, s.totalPages));
      }
    }
  }

  /**
   * As written, a paused reading never goes on: play is offered but changes nothing,
   * pause changes nothing, so without a stop the worker waits for ever.
   */
  lemma {:induction false} PausedReadingNeverResumes(s: Player, script: seq<Command>)
    requires s.playing && s.paused && !s.stopRequested && NoStop(script)
    ensures EnabledButtons(s).play && StartSpec(s) == s
    ensures !Hold(AsWritten, s, script).2
    decreases |script|
  {
    if script != [] {
      assert Apply(AsWritten, s, script[0]) == s;
      TailNoStop(script);
      PausedReadingNeverResumes(s, script[1..]);
    }
  }

  /** With the play button resuming a pause, the offered play button ends the wait. */
  lemma PlayEndsPause(s: Player, rest: seq<Command>)
    requires s.playing && s.paused && !s.stopRequested
    ensures EnabledButtons(s).play
    ensures Hold(ResumesPause, s, [Play] + rest) == (s.(paused := false), rest, true)
  {
    assert ([Play] + rest)[1..] == rest;
  }

  /**
   * Two pages with text, a pause while the first is spoken and play pressed after it:
   * as written the worker waits for ever after the first page; with play resuming,
   * both pages are read and the player ends idle.
   */
  lemma PauseThenPlayExample()
    ensures var s := Player(2, 0, true, false, false);
      var r := PlayDocumentSpec(AsWritten, s, ["one", "two"], [Pause, Play]);
      r.blocked && r.log == [Speak(0)]
    ensures var s := Player(2, 0, true, false, false);
      var r := PlayDocumentSpec(ResumesPause, s, ["one", "two"], [Pause, Play]);
      !r.blocked && r.log == [Speak(0), Speak(1)] && !r.state.playing
  {
    var s := Player(2, 0, true, false, false);
    var texts := ["one", "two"];
    assert ReadingRange.RawPageText(texts, 0) == "one";
    assert ReadingRange.RawPageText(texts, 1) == "two";
    var l := Listen(AsWritten, s.(currentPage := 0), [Pause, Play]);
    assert l == (s.(paused := true), [Play]);
    assert [Play][1..] == [];
    assert Hold(AsWritten, l.0, [Play]) == (l.0, [], false);
    var m := Listen(ResumesPause, s.(currentPage := 0), [Pause, Play]);
    assert m == (s.(paused := true), [Play]);
    assert Hold(ResumesPause, m.0, [Play]) == (s.(paused := false), [], true);
  }

  // ---------------------------------------------------------------- the player widget

  class TTSPlayerWidget {
    var totalPages: int
    var currentPage: int
    var isPlaying: bool
    var isPaused: bool
    var stopRequested: bool
    var voiceId: Option<string>

    function State(): Player
      reads this
    {
      Player(totalPages, currentPage, isPlaying, isPaused, stopRequested)
    }

    /** `__init__`: the fields, then load_voice_settings with the stored female flag and the engine's `voices`. */
    constructor(totalPages: int, currentPage: int, useFemale: bool, voices: seq<Voices.Voice>)
      ensures State() == Player(totalPages, currentPage, false, false, false)
      ensures voiceId == if voices != [] then Voices.Choose(voices, if useFemale then Voices.FemaleKeywords else Voices.MaleKeywords) else None
    {
      this.totalPages, this.currentPage := totalPages, currentPage;
      isPlaying, isPaused, stopRequested := false, false, false;
      voiceId := None;
      new;
      LoadVoiceSettings(useFemale, voices);
    }

    /** load_voice_settings: the shared keyword heuristic for the stored female flag; no voices leave it unset. */
    method LoadVoiceSettings(useFemale: bool, voices: seq<Voices.Voice>)
      modifies this
      ensures voices != [] ==> voiceId == Voices.Choose(voices, if useFemale then Voices.FemaleKeywords else Voices.MaleKeywords)
      ensures voices == [] ==> voiceId == old(voiceId)
      ensures State() == old(State())
    {
      if voices != [] {
        voiceId := Voices.ScanVoices(voices, if useFemale then Voices.FemaleKeywords else Voices.MaleKeywords);
      }
    }

    method UpdateButtons() returns (b: Buttons)
      ensures b == EnabledButtons(State())
    {
      b := Buttons(!isPlaying || isPaused, isPlaying && !isPaused, isPlaying);
    }

    method StartPlayback()
      modifies this
      ensures State() == StartSpec(old(State())) && voiceId == old(voiceId)
    {
      if isPlaying {
        return;
      }
      isPlaying, isPaused, stopRequested := true, false, false;
    }

    /** The play button as evidently intended: resume a paused reading, otherwise start_playback. */
    method PlayOrResume()
      modifies this
      ensures State() == PlayResumeSpec(old(State())) && voiceId == old(voiceId)
    {
      if isPlaying && isPaused {
        isPaused := false;
      } else {
        StartPlayback();
      }
    }

    method PausePlayback()
      modifies this
      ensures State() == PauseSpec(old(State())) && voiceId == old(voiceId)
    {
      if isPlaying && !isPaused {
        isPaused := true;
      }
    }

    method StopPlayback()
      modifies this
      ensures State() == StopSpec(old(State())) && voiceId == old(voiceId)
    {
      stopRequested, isPlaying, isPaused := true, false, false;
    }

    method Press(rule: PlayRule, c: Command)
      modifies this
      ensures State() == Apply(rule, old(State()), c)
    {
      match c {
        case Idle =>
        case Play =>
          if rule == AsWritten {
            StartPlayback();
          } else {
            PlayOrResume();
          }
        case Pause => PausePlayback();
        case Stop => StopPlayback();
      }
    }

    method HoldWhilePaused(rule: PlayRule, script: seq<Command>, k: nat) returns (k2: nat, released: bool)
      requires k <= |script|
      modifies this
      ensures k <= k2 <= |script|
      ensures (State(), script[k2..], released) == Hold(rule, old(State()), script[k..])
    {
      k2 := k;
      while isPaused && !stopRequested && k2 < |script|
        invariant k <= k2 <= |script|
        invariant Hold(rule, State(), script[k2..]) == Hold(rule, old(State()), script[k..])
        decreases |script| - k2
      {
        assert script[k2..][1..] == script[k2 + 1..];
        Press(rule, script[k2]);
        k2 := k2 + 1;
      }
      released := !(isPaused && !stopRequested);
    }

    /** One turn of the page loop, after its first stop check. */
    method PlayPage(rule: PlayRule, it: int, texts: seq<string>, script: seq<Command>, k: nat, log: seq<Event>)
      returns (k2: nat, log2: seq<Event>, leave: bool, blocked: bool)
      requires it < totalPages && k <= |script| && !stopRequested
      modifies this
      ensures k <= k2 <= |script| && totalPages == old(totalPages)
      ensures var r := ReadPages(rule, old(State()), it, texts, script[k..], log);
        if leave then Run(State(), log2, script[k2..], blocked) == r
        else !blocked && ReadPages(rule, State(), it + 1, texts, script[k2..], log2) == r
    {
      var released;
      k2, released := HoldWhilePaused(rule, script, k);
      log2 := log;
      if !released {
        return k2, log2, true, true;
      }
      if stopRequested {
        return k2, log2, true, false;
      }
      var text := ReadingRange.RawPageText(texts, it);
      if text == "" {
        return k2, log2, true, false;
      }
      leave, blocked := false, false;
      currentPage := it;
      log2 := log2 + [Speak(it)];
      if k2 < |script| {
        assert script[k2..][1..] == script[k2 + 1..];
        Press(rule, script[k2]);
        k2 := k2 + 1;
      }
    }

    /** play_document, the worker thread's body, with the play button following `rule`. */
    method PlayDocument(rule: PlayRule, texts: seq<string>, script: seq<Command>) returns (log: seq<Event>, blocked: bool)
      modifies this
      ensures var r := PlayDocumentSpec(rule, old(State()), texts, script);
        State() == r.state && log == r.log && blocked == r.blocked
    {
      var it, k := currentPage, 0;
      log, blocked := [], false;
      ghost var goal := ReadPages(rule, State(), currentPage, texts, script, []);
      while it < totalPages
        invariant 0 <= k <= |script| && !blocked
        invariant ReadPages(rule, State(), it, texts, script[k..], log) == goal
        decreases totalPages - it
      {
        if stopRequested {
          break;
        }
        var leave;
        k, log, leave, blocked := PlayPage(rule, it, texts, script, k, log);
        if leave {
          break;
        }
        it := it + 1;
      }
      if blocked {
        return;
      }
      isPlaying, isPaused := false, false;
    }
  }

  // ---------------------------------------------------------------- cursor mode

  /** A point of the view, in whole pixels. */
  datatype Point = Point(x: int, y: int)

  /** The viewer's selection state. */
  datatype Selection = Selection(textSelectMode: bool, start: Option<Point>, end: Option<Point>,
                                 hasRect: bool, selectedText: string, copyEnabled: bool)

  /** clear_selection: no points, no rectangle, no text, copying disabled. */
  predicate Cleared(s: Selection) {
    s.start.None? && s.end.None? && !s.hasRect && s.selectedText == "" && !s.copyEnabled
  }

  /** toggle_cursor_mode. */
  function ToggleCursorSpec(s: Selection): (r: Selection)
    ensures r.textSelectMode != s.textSelectMode && Cleared(r)
  {
    Selection(!s.textSelectMode, None, None, false, "", false)
  }

  /** Switching the cursor mode twice gives back the mode, with the selection cleared. */
  lemma ToggleCursorTwice(s: Selection)
    ensures ToggleCursorSpec(ToggleCursorSpec(s)).textSelectMode == s.textSelectMode
    ensures Cleared(s) ==> ToggleCursorSpec(ToggleCursorSpec(s)) == s
  {
  }

  class SelectionView {
    var textSelectMode: bool
    var selectionStart: Option<Point>
    var selectionEnd: Option<Point>
    var hasRect: bool
    var selectedText: string
    var copyEnabled: bool

    function State(): Selection
      reads this
    {
      Selection(textSelectMode, selectionStart, selectionEnd, hasRect, selectedText, copyEnabled)
    }

    /** A new viewer starts in text-selection mode with nothing selected. */
    constructor()
      ensures textSelectMode && Cleared(State())
    {
      textSelectMode := true;
      selectionStart, selectionEnd, hasRect, selectedText, copyEnabled := None, None, false, "", false;
    }

    method ClearSelection()
      modifies this
      ensures Cleared(State()) && textSelectMode == old(textSelectMode)
    {
      selectionStart, selectionEnd, hasRect, selectedText := None, None, false, "";
      copyEnabled := false;
    }

    method ToggleCursorMode()
      modifies this
      ensures State() == ToggleCursorSpec(old(State()))
    {
      textSelectMode := !textSelectMode;
      ClearSelection();
    }
  }
}
