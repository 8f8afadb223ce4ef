/**
 * The narration player of app_main_v2.py (`TTSPlayerWidget`) and app_main.py
 * (`TTSPlayerDialog`): one play/pause/resume button, a stop button, page navigation
 * inside the player, and a worker that reads from the player's current page to the end
 * of the document, skipping pages without text, until it finds the player stopped.
 *
 * The two editions differ in their buttons' guards and in how the start page is
 * chosen; their worker loops are the same. The worker is modelled sequentially: after
 * each spoken page one press from `script` is delivered (an empty script means no
 * press). A press of play after a stop while the worker still runs would start a
 * second worker in the source; here it only changes the flags the running worker sees.
 */
module LoopPlayer {
  import opened Text
  import Voices
  import ReadingRange

  /** The widget of app_main_v2.py or the dialog of app_main.py. */
  datatype Edition = Widget | Dialog

  /** Where reading starts: the player's current page, the first page, or a chosen page. */
  datatype Mode = Current | Start | Specific

  /**
   * The reading settings: the mode, the widget's 0-based specific page, and the text of
   * the dialog's page field (a 1-based number as typed).
   */
  datatype Setup = Setup(mode: Mode, specificPage: int, pageEntry: string)

  /** The dialog's enabled buttons: start/continue, pause and stop. */
  datatype Buttons = Buttons(start: bool, pause: bool, stop: bool)

  datatype Player = Player(totalPages: int, current: int, playing: bool, paused: bool, setup: Setup, buttons: Buttons)

  datatype Command = Idle | PlayPause | Pause | Stop | Goto(page: int)

  datatype Event = Speak(page: int)

  datatype Run = Run(state: Player, log: seq<Event>, rest: seq<Command>)

  /**
   * The page a start reads from, or None when the dialog's page field does not hold a
   * page of the document; only the dialog checks the entered number.
   */
  function StartPage(ed: Edition, s: Player): (r: Option<int>)
    ensures ed == Widget ==> r.Some?
    ensures s.setup.mode == Start ==> r == Some(0)
    ensures s.setup.mode == Current ==> r == Some(s.current)
    ensures ed == Dialog && s.setup.mode == Specific && r.Some? ==> 0 <= r.value < s.totalPages
    ensures ed == Dialog && s.setup.mode == Specific ==>
      (r.Some? <==> ParseInt(s.setup.pageEntry).Some? && 1 <= ParseInt(s.setup.pageEntry).value <= s.totalPages)
  {
    match s.setup.mode
    case Start => Some(0)
    case Current => Some(s.current)
    case Specific =>
      if ed == Widget then Some(s.setup.specificPage)
      else match ParseInt(s.setup.pageEntry)
        case None => None
        case Some(n) => if 0 <= n - 1 < s.totalPages then Some(n - 1) else None
  }

  /** play_pause_resume, apart from choosing the engine's voice. */
  function PlayPauseSpec(ed: Edition, s: Player): Player {
    if ed == Widget then
      if !s.playing then s.(current := StartPage(ed, s).value, playing := true)
      else if s.paused then s.(paused := false)
      else s.(paused := true)
    else if s.playing && !s.paused then s
    else
      var start := if s.playing then Some(s.current) else StartPage(ed, s);
      if start.None? then s
      else
        var t := s.(current := start.value, buttons := Buttons(false, true, true));
        if !s.playing && !s.paused then t.(playing := true)
        else t.(paused := false)
  }

  /** pause_speech: the widget's does nothing, the dialog's pauses a playing reading. */
  function PauseSpec(ed: Edition, s: Player): Player {
    if ed == Dialog && s.playing && !s.paused then
      s.(paused := true, buttons := s.buttons.(start := true, pause := false))
    else s
  }

  /** stop_speech: the widget's acts only while playing, the dialog's always and resets its buttons. */
  function StopSpec(ed: Edition, s: Player): Player {
    if ed == Widget then
      if s.playing then s.(playing := false, paused := false) else s
    else s.(playing := false, paused := false, buttons := Buttons(true, false, false))
  }

  /**
   * navigate_page and _set_current_read_page: only a page of the document is taken; the
   * dialog also writes the 1-based page number into its page field.
   */
  function GotoSpec(ed: Edition, s: Player, page: int): Player {
    if !(0 <= page < s.totalPages) then s
    else if ed == Widget then s.(current := page)
    else s.(current := page, setup := s.setup.(pageEntry := IntToString(page + 1)))
  }

  /** navigate_page's target: `delta` itself when absolute, else a step from the current page. */
  function NavigateTarget(current: int, delta: int, absolute: bool): int {
    if absolute then delta else current + delta
  }

  function Apply(ed: Edition, s: Player, c: Command): Player {
    match c
    case Idle => s
    case PlayPause => PlayPauseSpec(ed, s)
    case Pause => PauseSpec(ed, s)
    case Stop => StopSpec(ed, s)
    case Goto(p) => GotoSpec(ed, s, p)
  }

  /** A player is never paused without playing. */
  predicate Consistent(s: Player) {
    s.paused ==> s.playing
  }

  /**
   * The play button: from a stopped player both editions start at the start page (the
   * dialog unless its page field is bad, in which case nothing changes); a paused reading
   * resumes; a playing one pauses in the widget and is left alone in the dialog.
   */
  lemma PlayPauseMeaning(ed: Edition, s: Player)
    requires Consistent(s)
    ensures var r := PlayPauseSpec(ed, s);
      Consistent(r) && r.totalPages == s.totalPages && r.setup == s.setup
    ensures var r := PlayPauseSpec(ed, s);
      !s.playing && StartPage(ed, s).Some? ==> r.playing && !r.paused && r.current == StartPage(ed, s).value
    ensures !s.playing && StartPage(ed, s).None? ==> PlayPauseSpec(ed, s) == s
    ensures s.paused ==> PlayPauseSpec(ed, s) == s.(paused := false) || PlayPauseSpec(ed, s) == s.(paused := false, buttons := Buttons(false, true, true))
    ensures s.playing && !s.paused ==> PlayPauseSpec(ed, s) == (if ed == Widget then s.(paused := true) else s)
  {
  }

  /** Every press keeps the player consistent, and nothing but a goto or a start moves the current page. */
  lemma ApplyKeepsConsistent(ed: Edition, s: Player, c: Command)
    requires Consistent(s)
    ensures Consistent(Apply(ed, s, c)) && Apply(ed, s, c).totalPages == s.totalPages
    ensures !c.Goto? && !(c == PlayPause && !s.playing) ==> Apply(ed, s, c).current == s.current
    ensures c != Stop && s.playing ==> Apply(ed, s, c).playing
  {
  }

  /**
   * `_set_current_read_page`/`navigate_page` take a page of the document and nothing
   * else, so a player whose current page is in the document keeps it there.
   */
  lemma GotoStaysInDocument(ed: Edition, s: Player, page: int)
    ensures GotoSpec(ed, s, page).current == page <==> 0 <= page < s.totalPages || page == s.current
    ensures 0 <= s.current < s.totalPages ==> 0 <= GotoSpec(ed, s, page).current < s.totalPages
  {
  }

  /**
   * After the dialog moves to a page, a start from its page field starts there: the
   * number written into the field parses back to the same page.
   */
  lemma DialogGotoThenSpecificStart(s: Player, page: int)
    requires 0 <= page < s.totalPages && s.setup.mode == Specific
    ensures StartPage(Dialog, GotoSpec(Dialog, s, page)) == Some(page)
  {
    IntToStringRoundTrip(page + 1);
  }

  /** The widget's previous/next buttons move one page only inside the document; first and last reach its ends. */
  lemma WidgetNavigation(s: Player)
    requires s.totalPages > 0
    ensures GotoSpec(Widget, s, NavigateTarget(s.current, 0, true)).current == 0
    ensures GotoSpec(Widget, s, NavigateTarget(s.current, s.totalPages - 1, true)).current == s.totalPages - 1
    ensures GotoSpec(Widget, s, NavigateTarget(s.current, 1, false)).current == (if 0 <= s.current + 1 < s.totalPages then s.current + 1 else s.current)
    ensures GotoSpec(Widget, s, NavigateTarget(s.current, -1, false)).current == (if 0 <= s.current - 1 < s.totalPages then s.current - 1 else s.current)
  {
  }

  /** The widget's play button shows "pause" exactly while a reading plays unpaused. */
  predicate ShowsPause(s: Player) {
    s.playing && !s.paused
  }

  /**
   * The dialog's buttons after a press: after a start or resume only pause and stop,
   * after a pause start again, after a stop only start.
   */
  lemma DialogButtons(s: Player)
    requires Consistent(s)
    ensures !s.playing && StartPage(Dialog, s).Some? ==> PlayPauseSpec(Dialog, s).buttons == Buttons(false, true, true)
    ensures s.paused ==> PlayPauseSpec(Dialog, s).buttons == Buttons(false, true, true)
    ensures s.playing && !s.paused ==> PauseSpec(Dialog, s).buttons.start && !PauseSpec(Dialog, s).buttons.pause
    ensures StopSpec(Dialog, s).buttons == Buttons(true, false, false)
  {
  }

  /**
   * The keywords the two editions look for: 'male' when the male choice is set,
   * 'female' when the female one is.
   */
  function GenderKeywords(useMale: bool, useFemale: bool): (r: seq<string>)
    ensures |r| <= 2
  {
    (if useMale then ["male"] else []) + (if useFemale then ["female"] else [])
  }

  /**
   * get_voice_id: a voice matches when the male choice is set and its name contains
   * 'male', or the female choice is set and it contains 'female'; so with the male
   * choice every female voice matches too.
   */
  lemma GenderKeywordsMeaning(v: Voices.Voice, useMale: bool, useFemale: bool)
    ensures Voices.Matches(v, GenderKeywords(useMale, useFemale)) <==>
      (useMale && Contains(Lower(v.name), "male")) || (useFemale && Contains(Lower(v.name), "female"))
  {
    var kw := GenderKeywords(useMale, useFemale);
    if useMale && Contains(Lower(v.name), "male") {
      assert kw[0] == "male";
    }
    if useFemale && Contains(Lower(v.name), "female") {
      assert kw[|kw| - 1] == "female";
    }
  }

  /**
   * `_run_tts_loop` from page `i`: leave when the player is no longer playing; speak a
   * page with text, take one press, and set the current page past the spoken one.
   */
  function Loop(ed: Edition, s: Player, i: int, texts: seq<string>, script: seq<Command>, log: seq<Event>): Run
    decreases s.totalPages - i
  {
    if i >= s.totalPages || !s.playing then Run(s, log, script)
    else if ReadingRange.RawPageText(texts, i) == "" then Loop(ed, s, i + 1, texts, script, log)
    else
      var t := if script == [] then s else Apply(ed, s, script[0]);
      var rest := if script == [] then script else script[1..];
      Loop(ed, t.(current := i + 1), i + 1, texts, rest, log + [Speak(i)])
  }

  /** The worker: the page loop from the current page, then stop_speech. */
  function WorkerSpec(ed: Edition, s: Player, texts: seq<string>, script: seq<Command>): Run {
    var r := Loop(ed, s, s.current, texts, script, []);
    r.(state := StopSpec(ed, r.state))
  }

  /** The pages from `i` to the end that have text. */
  function Expected(texts: seq<string>, i: int, total: int): seq<Event>
    decreases total - i
  {
    if i >= total then []
    else if ReadingRange.RawPageText(texts, i) == "" then Expected(texts, i + 1, total)
    else [Speak(i)] + Expected(texts, i + 1, total)
  }

  predicate NoStop(script: seq<Command>) {
    forall k | 0 <= k < |script| :: script[k] != Stop
  }

  lemma AppendAssociates(a: seq<Event>, b: seq<Event>, c: seq<Event>)
    ensures a + b + c == a + (b + c)
  {
  }

  /**
   * Whatever is pressed, the loop speaks pages with text in ascending order, starting at
   * its first page: its log extends by a prefix of the expected pages.
   */
  lemma {:induction false} LoopSpeaksInOrder(ed: Edition, s: Player, i: int, texts: seq<string>, script: seq<Command>, log: seq<Event>)
    ensures var r := Loop(ed, s, i, texts, script, log);
      |log| <= |r.log| && r.log[..|log|] == log && r.log[|log|..] <= Expected(texts, i, s.totalPages)
    decreases s.totalPages - i
  {
    if i < s.totalPages && s.playing {
      if ReadingRange.RawPageText(texts, i) == "" {
        LoopSpeaksInOrder(ed, s, i + 1, texts, script, log);
        assert Expected(texts, i, s.totalPages) == Expected(texts, i + 1, s.totalPages);
      } else {
        var t := if script == [] then s else Apply(ed, s, script[0]);
        var rest := if script == [] then script else script[1..];
        var log1 := log + [Speak(i)];
        var u := t.(current := i + 1);
        assert u.totalPages == s.totalPages;
        LoopSpeaksInOrder(ed, u, i + 1, texts, rest, log1);
        var r := Loop(ed, u, i + 1, texts, rest, log1);
        assert Loop(ed, s, i, texts, script, log) == r;
        var later := Expected(texts, i + 1, s.totalPages);
        assert Expected(texts, i, s.totalPages) == [Speak(i)] + later;
        assert r.log[..|log1|] == log1;
        assert r.log[..|log|] == log1[..|log|];
        assert r.log[|log|..] == [Speak(i)] + r.log[|log1|..];
        PrefixCons(Speak(i), r.log[|log1|..], later);
      }
    }
  }

  lemma PrefixCons(e: Event, a: seq<Event>, b: seq<Event>)
    requires a <= b
    ensures [e] + a <= [e] + b
  {
    assert ([e] + b)[..|a| + 1] == [e] + b[..|a|];
  }

  lemma TailNoStop(script: seq<Command>)
    requires script != [] && NoStop(script)
    ensures NoStop(script[1..])
  {
    forall k | 0 <= k < |script[1..]| ensures script[1..][k] != Stop {
      assert script[1..][k] == script[k + 1];
    }
  }

  /**
   * Without a stop, a playing loop speaks every page with text from `i` on, and leaves
   * the current page just past the last page it spoke.
   */
  lemma {:induction false} LoopWithoutStop(ed: Edition, s: Player, i: int, texts: seq<string>, script: seq<Command>, log: seq<Event>)
    requires s.playing && Consistent(s) && NoStop(script)
    ensures var r := Loop(ed, s, i, texts, script, log);
      r.log == log + Expected(texts, i, s.totalPages) &&
      (Expected(texts, i, s.totalPages) != [] ==> r.state.current == r.log[|r.log| - 1].page + 1) &&
      (Expected(texts, i, s.totalPages) == [] ==> r.state == s)
    decreases s.totalPages - i
  {
    if i < s.totalPages {
      if ReadingRange.RawPageText(texts, i) == "" {
        LoopWithoutStop(ed, s, i + 1, texts, script, log);
      } else {
        var t := if script == [] then s else Apply(ed, s, script[0]);
        var rest := if script == [] then script else script[1..];
        if script != [] {
          ApplyKeepsConsistent(ed, s, script[0]);
          TailNoStop(script);
        }
        var log1 := log + [Speak(i)];
        LoopWithoutStop(ed, t.(current := i + 1), i + 1, texts, rest, log1);
        AppendAssociates(log, [Speak(i)], Expected(texts, i + 1, s.totalPages));
      }
    }
  }

  /**
   * A started worker that nobody stops reads every page with text from its start page
   * to the end of the document, leaves the current page past the last page read, and
   * ends with the player stopped.
   */
  lemma WorkerReadsToEnd(ed: Edition, s: Player, texts: seq<string>, script: seq<Command>)
    requires s.playing && Consistent(s) && NoStop(script)
    ensures var r := WorkerSpec(ed, s, texts, script);
      r.log == Expected(texts, s.current, s.totalPages) && !r.state.playing && !r.state.paused &&
      (r.log != [] ==> r.state.current == r.log[|r.log| - 1].page + 1)
  {
    LoopWithoutStop(ed, s, s.current, texts, script, []);
    LoopKeepsConsistent(ed, s, s.current, texts, script, []);
  }

  lemma {:induction false} LoopKeepsConsistent(ed: Edition, s: Player, i: int, texts: seq<string>, script: seq<Command>, log: seq<Event>)
    requires Consistent(s)
    ensures Consistent(Loop(ed, s, i, texts, script, log).state)
    decreases s.totalPages - i
  {
    if i < s.totalPages && s.playing {
      if ReadingRange.RawPageText(texts, i) == "" {
        LoopKeepsConsistent(ed, s, i + 1, texts, script, log);
      } else {
        var t := if script == [] then s else Apply(ed, s, script[0]);
        var rest := if script == [] then script else script[1..];
        if script != [] {
          ApplyKeepsConsistent(ed, s, script[0]);
        }
        LoopKeepsConsistent(ed, t.(current := i + 1), i + 1, texts, rest, log + [Speak(i)]);
      }
    }
  }

  /** Whatever is pressed, a consistent player's worker ends stopped and unpaused. */
  lemma WorkerEndsStopped(ed: Edition, s: Player, texts: seq<string>, script: seq<Command>)
    requires Consistent(s)
    ensures !WorkerSpec(ed, s, texts, script).state.playing && !WorkerSpec(ed, s, texts, script).state.paused
  {
    LoopKeepsConsistent(ed, s, s.current, texts, script, []);
  }

  /** A stop pressed while the first page is spoken ends the reading after that page. */
  lemma StopEndsReading(ed: Edition, s: Player, texts: seq<string>, rest: seq<Command>)
    requires s.playing && 0 <= s.current < s.totalPages && ReadingRange.RawPageText(texts, s.current) != ""
    ensures WorkerSpec(ed, s, texts, [Stop] + rest).log == [Speak(s.current)]
  {
    assert ([Stop] + rest)[0] == Stop && ([Stop] + rest)[1..] == rest;
    var t := StopSpec(ed, s).(current := s.current + 1);
    assert !t.playing;
    assert [] + [Speak(s.current)] == [Speak(s.current)];
    assert Loop(ed, s, s.current, texts, [Stop] + rest, []) == Loop(ed, t, s.current + 1, texts, rest, [Speak(s.current)]);
    assert Loop(ed, t, s.current + 1, texts, rest, [Speak(s.current)]).log == [Speak(s.current)];
  }
}
