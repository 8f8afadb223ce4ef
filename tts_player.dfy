/**
 * The narration engine of tts_player.py (`TTSPlayer`): a queue of page texts, the page
 * being read, a playing flag, stop and pause events, and a worker thread that reads
 * the queue from the current page on; and its settings dialog's `save_settings`.
 *
 * The worker is modelled sequentially: while a page is spoken one press from `script`
 * is delivered (an empty script means no press). `alive` stands for "the worker thread
 * exists and has not ended".
 */
module TtsPlayer {
  import opened Text
  import Voices

  /** `_read_mode`: 'all', 'current' (read one page) and 'from'. */
  datatype TMode = All | CurrentOnly | From

  datatype Tts = Tts(queue: seq<string>, current: int, total: int, playing: bool,
                     stopSet: bool, pauseSet: bool, alive: bool, mode: TMode)

  datatype Command = Idle | Play | Pause | Resume | Stop | Next | Prev | First | Last

  datatype Event = Speak(page: int) | Finished

  /** How the worker ended: past its loop, by an exception, or still waiting when the script ran out. */
  datatype Outcome = Ended | Crashed | Blocked

  datatype Run = Run(state: Tts, log: seq<Event>, rest: seq<Command>, outcome: Outcome)

  /**
   * What the worker does with a set pause event: as written it calls `wait()` on the
   * event that is already set, which returns at once; the evident intent is to wait
   * until the pause is lifted.
   */
  datatype PauseRule = AsWritten | WaitsWhilePaused

  /** A new player: no content, first page, stopped, reading mode 'all'. */
  const Initial := Tts([], 0, 0, false, false, false, false, All)

  /** `queue[i]` in Python: negative indices count from the end; None is an IndexError. */
  function PyIndex(q: seq<string>, i: int): (r: Option<string>)
    ensures 0 <= i < |q| ==> r == Some(q[i])
    ensures r.None? <==> !(-|q| <= i < |q|)
  {
    if 0 <= i < |q| then Some(q[i])
    else if -|q| <= i < 0 then Some(q[|q| + i])
    else None
  }

  /** set_content. */
  function SetContentSpec(s: Tts, texts: seq<string>, startPage: int): (r: Tts)
    ensures r.total == |texts| && r.current == startPage && r.queue == texts
  {
    s.(queue := texts, total := |texts|, current := startPage)
  }

  function ResumeSpec(s: Tts): Tts {
    s.(pauseSet := false, playing := true)
  }

  /**
   * play: nothing on an empty queue; without a live worker, clear both events and start
   * one; with a live worker that is not playing, resume.
   */
  function PlaySpec(s: Tts): Tts {
    if s.queue == [] then s
    else if !s.alive then s.(stopSet := false, pauseSet := false, alive := true, playing := true)
    else if !s.playing then ResumeSpec(s)
    else s
  }

  function PauseSpec(s: Tts): Tts {
    s.(pauseSet := true, playing := false)
  }

  function StopSpec(s: Tts): Tts {
    s.(stopSet := true, playing := false)
  }

  /** next_page: one page on, inside the content, then play. */
  function NextSpec(s: Tts): Tts {
    if s.current < s.total - 1 then PlaySpec(s.(current := s.current + 1)) else s
  }

  function PrevSpec(s: Tts): Tts {
    if s.current > 0 then PlaySpec(s.(current := s.current - 1)) else s
  }

  function FirstSpec(s: Tts): Tts {
    PlaySpec(s.(current := 0))
  }

  /** last_page: `total - 1` with no guard, so -1 on empty content. */
  function LastSpec(s: Tts): Tts {
    PlaySpec(s.(current := s.total - 1))
  }

  function Apply(s: Tts, c: Command): (r: Tts)
    ensures r.total == s.total && r.queue == s.queue && r.mode == s.mode
  {
    match c
    case Idle => s
    case Play => PlaySpec(s)
    case Pause => PauseSpec(s)
    case Resume => ResumeSpec(s)
    case Stop => StopSpec(s)
    case Next => NextSpec(s)
    case Prev => PrevSpec(s)
    case First => FirstSpec(s)
    case Last => LastSpec(s)
  }

  /** get_status: playing, the 1-based current page, the page count. */
  function Status(s: Tts): (r: (bool, int, int))
    ensures r.0 == s.playing && r.1 - 1 == s.current && r.2 == s.total
  {
    (s.playing, s.current + 1, s.total)
  }

  /**
   * The page-step commands: next and previous move one page only inside the content,
   * first and last go to its ends (last to -1 on empty content); each then plays, which
   * on empty content does nothing more.
   */
  lemma PageStepsMeaning(s: Tts)
    ensures NextSpec(s).current == (if s.current < s.total - 1 then s.current + 1 else s.current)
    ensures PrevSpec(s).current == (if s.current > 0 then s.current - 1 else s.current)
    ensures FirstSpec(s).current == 0 && LastSpec(s).current == s.total - 1
    ensures s.total == 0 && s.queue == [] ==> LastSpec(s) == s.(current := -1)
    ensures 0 <= s.current < s.total ==>
      0 <= NextSpec(s).current < s.total && 0 <= PrevSpec(s).current < s.total
  {
  }

  /**
   * play on content starts a worker when none is alive and resumes a live one that is
   * not playing; either way the player then plays. Pause then play resumes.
   */
  lemma PlayMeaning(s: Tts)
    requires s.pauseSet ==> !s.playing
    ensures PlaySpec(s).pauseSet ==> !PlaySpec(s).playing
    ensures s.queue == [] ==> PlaySpec(s) == s
    ensures s.queue != [] ==> PlaySpec(s).playing && PlaySpec(s).alive && !PlaySpec(s).pauseSet
    ensures s.queue != [] && !s.alive ==> !PlaySpec(s).stopSet
    ensures s.queue != [] && s.alive ==> PlaySpec(PauseSpec(s)) == ResumeSpec(s)
  {
  }

  /** The wait as intended: presses arrive while the pause event is set and no stop is. */
  function Hold(s: Tts, script: seq<Command>): (r: (Tts, seq<Command>, bool))
    ensures r.0.total == s.total && r.0.queue == s.queue && r.0.mode == s.mode
    ensures |r.1| <= |script| && (|r.1| == |script| ==> r.0 == s)
    ensures r.2 <==> !r.0.pauseSet || r.0.stopSet
    decreases |script|
  {
    if !(s.pauseSet && !s.stopSet) then (s, script, true)
    else if script == [] then (s, script, false)
    else Hold(Apply(s, script[0]), script[1..])
  }

  function Listen(s: Tts, script: seq<Command>): (r: (Tts, seq<Command>))
    ensures r.0.total == s.total && r.0.queue == s.queue && r.0.mode == s.mode
    ensures script != [] ==> |r.1| < |script|
    ensures script == [] ==> r == (s, script)
  {
    if script == [] then (s, script) else (Apply(s, script[0]), script[1..])
  }

  datatype TurnEnd = Continue | Leave | Crash | Hang

  /** One pass of the loop body: what it said, the state and presses left, and how it ends. */
  datatype Turn = Turn(state: Tts, rest: seq<Command>, said: seq<Event>, end: TurnEnd)

  /**
   * The body of `_run`'s loop: the pause check, reading `queue[current]` (an IndexError
   * ends the thread), one press while the page is spoken, then either stop and leave in
   * 'current' mode or move to the next page.
   */
  function TurnSpec(rule: PauseRule, s: Tts, script: seq<Command>): (t: Turn)
    ensures t.state.total == s.total && t.state.queue == s.queue && t.state.mode == s.mode
    ensures t.end == Continue ==> |t.rest| < |script| || (t.rest == script && t.state.current == s.current + 1)
    ensures |t.rest| <= |script|
  {
    var h := if rule == AsWritten then (s, script, true) else Hold(s, script);
    if !h.2 then Turn(h.0, h.1, [], Hang)
    else if rule == WaitsWhilePaused && h.0.stopSet then Turn(h.0, h.1, [], Leave)
    else match PyIndex(h.0.queue, h.0.current)
      case None => Turn(h.0.(alive := false), h.1, [], Crash)
      case Some(_) =>
        var l := Listen(h.0, h.1);
        if h.0.mode == CurrentOnly then Turn(StopSpec(l.0), l.1, [Speak(h.0.current)], Leave)
        else Turn(l.0.(current := l.0.current + 1), l.1, [Speak(h.0.current)], Continue)
  }

  /** After the loop: not playing, the thread ends, `finished` is emitted. */
  function Finish(s: Tts, log: seq<Event>, script: seq<Command>): Run {
    Run(s.(playing := false, alive := false), log + [Finished], script, Ended)
  }

  /** `_run`: `while current < total and not stop_event.is_set()`. */
  function ReadLoop(rule: PauseRule, s: Tts, script: seq<Command>, log: seq<Event>): (r: Run)
    decreases |script|, s.total - s.current, 1
  {
    if !(s.current < s.total && !s.stopSet) then Finish(s, log, script)
    else LoopTurn(rule, s, script, log)
  }

  /** One pass of the loop body, then the rest of the loop if the pass went on. */
  function LoopTurn(rule: PauseRule, s: Tts, script: seq<Command>, log: seq<Event>): (r: Run)
    requires s.current < s.total
    decreases |script|, s.total - s.current, 0
  {
    var t := TurnSpec(rule, s, script);
    match t.end
    case Hang => Run(t.state, log, t.rest, Blocked)
    case Crash => Run(t.state, log, t.rest, Crashed)
    case Leave => Finish(t.state, log + t.said, t.rest)
    case Continue => ReadLoop(rule, t.state, t.rest, log + t.said)
  }

  /** The loop read off one pass of its body: the state, presses and words that follow it. */
  lemma LoopStep(rule: PauseRule, s: Tts, script: seq<Command>, log: seq<Event>,
                 s2: Tts, rest: seq<Command>, said: seq<Event>, end: TurnEnd)
    requires s.current < s.total && !s.stopSet
    requires TurnSpec(rule, s, script) == Turn(s2, rest, said, end)
    ensures |rest| <= |script| && s2.total == s.total
    ensures end == Continue ==>
      (|rest| < |script| || s2.current == s.current + 1)
      && ReadLoop(rule, s, script, log) == ReadLoop(rule, s2, rest, log + said)
    ensures end == Leave ==> ReadLoop(rule, s, script, log) == Finish(s2, log + said, rest)
    ensures end == Hang ==> ReadLoop(rule, s, script, log) == Run(s2, log, rest, Blocked)
    ensures end == Crash ==> ReadLoop(rule, s, script, log) == Run(s2, log, rest, Crashed)
  {
  }

  /** The pages from `i` to the end of the content. */
  function Expected(i: int, total: int): seq<Event>
    decreases total - i
  {
    if i >= total then [] else [Speak(i)] + Expected(i + 1, total)
  }

  /** Presses that neither stop the reading nor move the page. */
  predicate Gentle(script: seq<Command>) {
    forall k | 0 <= k < |script| :: script[k].Idle? || script[k].Play? || script[k].Pause? || script[k].Resume?
  }

  /** Presses that neither lift the pause nor stop nor move the page. */
  predicate OnlyPauses(script: seq<Command>) {
    forall k | 0 <= k < |script| :: script[k].Idle? || script[k].Pause?
  }

  lemma GentleTail(script: seq<Command>)
    requires script != [] && Gentle(script)
    ensures Gentle(script[1..])
  {
    forall k | 0 <= k < |script[1..]| ensures script[1..][k] == script[k + 1] {
    }
  }

  lemma OnlyPausesTail(script: seq<Command>)
    requires script != [] && OnlyPauses(script)
    ensures OnlyPauses(script[1..]) && Gentle(script)
  {
    forall k | 0 <= k < |script[1..]| ensures script[1..][k] == script[k + 1] {
    }
  }

  lemma {:induction false} HoldGentle(s: Tts, script: seq<Command>)
    requires Gentle(script) && !s.stopSet
    ensures Hold(s, script).0.current == s.current && !Hold(s, script).0.stopSet && Gentle(Hold(s, script).1)
    decreases |script|
  {
    if s.pauseSet && script != [] {
      GentleTail(script);
      HoldGentle(Apply(s, script[0]), script[1..]);
    }
  }

  lemma AppendAssociates(a: seq<Event>, b: seq<Event>, c: seq<Event>)
    ensures a + b + c == a + (b + c)
  {
  }

  /**
   * In 'all' and 'from' mode (the loop stops after one page only in 'current' mode),
   * presses that neither stop nor move the page leave every page of the content from
   * the current one read once, in order, then `finished`: always as written, and under
   * the intended rule whenever the worker is not left waiting.
   */
  lemma {:induction false} ReadsEveryPage(rule: PauseRule, s: Tts, script: seq<Command>, log: seq<Event>)
    requires s.total == |s.queue| && 0 <= s.current && s.mode != CurrentOnly && !s.stopSet && Gentle(script)
    ensures var r := ReadLoop(rule, s, script, log);
      r.outcome != Blocked ==> r.outcome == Ended && r.log == log + Expected(s.current, s.total) + [Finished]
    ensures rule == AsWritten ==> ReadLoop(rule, s, script, log).outcome != Blocked
    decreases |script|, s.total - s.current
  {
    if s.current < s.total {
      GentleTurn(rule, s, script);
      var t := TurnSpec(rule, s, script);
      if t.end == Continue {
        ContinueStep(rule, s, script, log);
        ReadsEveryPage(rule, t.state, t.rest, log + t.said);
        AppendAssociates(log, [Speak(s.current)], Expected(s.current + 1, s.total));
      }
    }
  }

  /** One turn outside 'current' mode under gentle presses: the current page is spoken and the loop goes on, unless it waits. */
  lemma GentleTurn(rule: PauseRule, s: Tts, script: seq<Command>)
    requires s.total == |s.queue| && 0 <= s.current < s.total && s.mode != CurrentOnly && !s.stopSet && Gentle(script)
    ensures var t := TurnSpec(rule, s, script);
      (t.end == Continue && t.said == [Speak(s.current)] && t.state.current == s.current + 1 &&
       !t.state.stopSet && Gentle(t.rest)) ||
      (rule == WaitsWhilePaused && t.end == Hang)
  {
    var h := if rule == AsWritten then (s, script, true) else Hold(s, script);
    if rule == WaitsWhilePaused {
      HoldGentle(s, script);
    }
    if h.2 && h.1 != [] {
      GentleTail(h.1);
    }
  }

  /**
   * Under the intended rule, a paused worker reads nothing more until the pause is
   * lifted or a stop arrives.
   */
  lemma CorrectedPauseHolds(s: Tts, script: seq<Command>, log: seq<Event>)
    requires s.pauseSet && !s.playing && !s.stopSet && s.current < s.total && OnlyPauses(script)
    ensures ReadLoop(WaitsWhilePaused, s, script, log) == Run(s, log, [], Blocked)
  {
    HoldOnlyPauses(s, script);
  }

  lemma {:induction false} HoldOnlyPauses(s: Tts, script: seq<Command>)
    requires s.pauseSet && !s.stopSet && !s.playing && OnlyPauses(script)
    ensures Hold(s, script) == (s, [], false)
    decreases |script|
  {
    if script != [] {
      OnlyPausesTail(script);
      assert Apply(s, script[0]) == s;
      HoldOnlyPauses(s, script[1..]);
    }
  }

  /**
   * Two pages, pause pressed while the first is spoken: as written the second page is
   * read all the same and the run ends; under the intended rule the worker waits.
   */
  lemma PauseIsIgnoredExample()
    ensures var s := Tts(["a", "b"], 0, 2, true, false, false, true, All);
      ReadLoop(AsWritten, s, [Pause], []).log == [Speak(0), Speak(1), Finished]
    ensures var s := Tts(["a", "b"], 0, 2, true, false, false, true, All);
      var r := ReadLoop(WaitsWhilePaused, s, [Pause], []);
      r.outcome == Blocked && r.log == [Speak(0)]
  {
    var s := Tts(["a", "b"], 0, 2, true, false, false, true, All);
    assert [Pause][1..] == [];
    var p := PauseSpec(s).(current := 1);
    assert TurnSpec(AsWritten, s, [Pause]) == Turn(p, [], [Speak(0)], Continue);
    assert TurnSpec(AsWritten, p, []) == Turn(p.(current := 2), [], [Speak(1)], Continue);
    assert TurnSpec(WaitsWhilePaused, s, [Pause]) == Turn(p, [], [Speak(0)], Continue);
    assert TurnSpec(WaitsWhilePaused, p, []) == Turn(p, [], [], Hang);
  }

  /** In 'current' mode the worker reads the current page only, then stops. */
  lemma CurrentModeReadsOnePage(rule: PauseRule, s: Tts, script: seq<Command>)
    requires s.mode == CurrentOnly && 0 <= s.current < s.total == |s.queue| && !s.stopSet && !s.pauseSet
    ensures var r := ReadLoop(rule, s, script, []);
      r.outcome == Ended && r.log == [Speak(s.current), Finished] && r.state.stopSet && !r.state.playing && !r.state.alive
  {
    var t := TurnSpec(rule, s, script);
    assert t.end == Leave && t.said == [Speak(s.current)];
  }

  /**
   * A next pressed while page p is spoken moves the page to p + 1, and the loop then
   * steps on from there: the page read after p is p + 2.
   */
  lemma NextWhileSpeakingSkipsPage(s: Tts, rest: seq<Command>)
    requires s.mode != CurrentOnly && 0 <= s.current && s.current + 2 < s.total == |s.queue|
    requires !s.stopSet && s.playing && s.alive
    ensures var r := ReadLoop(AsWritten, s, [Next] + rest, []);
      |r.log| >= 2 && r.log[0] == Speak(s.current) && r.log[1] == Speak(s.current + 2)
  {
    var s1 := s.(current := s.current + 2);
    var log1 := [Speak(s.current)];
    var log2 := [Speak(s.current), Speak(s.current + 2)];
    TurnWithNext(s, rest);
    ContinueStep(AsWritten, s, [Next] + rest, []);
    assert [] + log1 == log1;
    var t := TurnSpec(AsWritten, s1, rest);
    TurnOutsideCurrentMode(s1, rest);
    ContinueStep(AsWritten, s1, rest, log1);
    assert log1 + t.said == log2;
    ReadLoopKeepsLog(AsWritten, t.state, t.rest, log2);
    var r2 := ReadLoop(AsWritten, t.state, t.rest, log2);
    assert ReadLoop(AsWritten, s, [Next] + rest, []) == r2;
    assert r2.log[..2] == log2;
    assert r2.log[0] == r2.log[..2][0] && r2.log[1] == r2.log[..2][1];
  }

  lemma TurnWithNext(s: Tts, rest: seq<Command>)
    requires s.mode != CurrentOnly && 0 <= s.current && s.current + 2 < s.total == |s.queue|
    requires s.playing && s.alive
    ensures TurnSpec(AsWritten, s, [Next] + rest) == Turn(s.(current := s.current + 2), rest, [Speak(s.current)], Continue)
  {
    var script := [Next] + rest;
    assert script[0] == Next && script[1..] == rest;
    assert Listen(s, script) == (s.(current := s.current + 1), rest);
  }

  /** As written, a turn outside 'current' mode on a page of the content speaks it and goes on. */
  lemma TurnOutsideCurrentMode(s: Tts, script: seq<Command>)
    requires s.mode != CurrentOnly && 0 <= s.current < s.total == |s.queue|
    ensures TurnSpec(AsWritten, s, script).said == [Speak(s.current)] && TurnSpec(AsWritten, s, script).end == Continue
  {
  }

  /** A loop turn that goes on. */
  lemma ContinueStep(rule: PauseRule, s: Tts, script: seq<Command>, log: seq<Event>)
    requires s.current < s.total && !s.stopSet && TurnSpec(rule, s, script).end == Continue
    ensures var t := TurnSpec(rule, s, script);
      ReadLoop(rule, s, script, log) == ReadLoop(rule, t.state, t.rest, log + t.said)
  {
  }

  /** The loop only appends to its log. */
  lemma {:induction false} ReadLoopKeepsLog(rule: PauseRule, s: Tts, script: seq<Command>, log: seq<Event>)
    ensures var r := ReadLoop(rule, s, script, log);
      |log| <= |r.log| && r.log[..|log|] == log
    decreases |script|, s.total - s.current
  {
    if s.current < s.total && !s.stopSet {
      var t := TurnSpec(rule, s, script);
      if t.end == Continue {
        ReadLoopKeepsLog(rule, t.state, t.rest, log + t.said);
        var r := ReadLoop(rule, t.state, t.rest, log + t.said);
        assert r.log[..|log|] == (log + t.said)[..|log|];
      }
    }
  }

  /** The start page a 'from' entry selects: a 1-based number inside the content; anything else keeps the page. */
  function FromEntryPage(entry: string, total: int, current: int): (r: int)
    ensures ParseInt(entry).Some? && 1 <= ParseInt(entry).value <= total ==> r == ParseInt(entry).value - 1
    ensures !(ParseInt(entry).Some? && 1 <= ParseInt(entry).value <= total) ==> r == current
  {
    match ParseInt(entry)
    case Some(n) => if 1 <= n <= total then n - 1 else current
    case None => current
  }

  /** The settings dialog's mode radio buttons. */
  datatype ModeChoice = ChooseAll | ChooseCurrent | ChooseFrom

  /** The page field shows the 1-based current page, and saving it unchanged keeps the page. */
  lemma FromEntryRoundTrip(s: Tts)
    requires 0 <= s.current < s.total
    ensures FromEntryPage(IntToString(Status(s).1), s.total, s.current) == s.current
  {
    IntToStringRoundTrip(s.current + 1);
  }

  class TTSPlayer {
    var textQueue: seq<string>
    var currentPage: int
    var totalPages: int
    var isPlaying: bool
    var stopSet: bool
    var pauseSet: bool
    var alive: bool
    var readMode: TMode
    var voiceId: Option<string>

    function State(): Tts
      reads this
    {
      Tts(textQueue, currentPage, totalPages, isPlaying, stopSet, pauseSet, alive, readMode)
    }

    /** The fields `__init__` sets before it loads the settings. */
    constructor()
      ensures State() == Initial && voiceId == None
    {
      textQueue, currentPage, totalPages := [], 0, 0;
      isPlaying, stopSet, pauseSet, alive := false, false, false, false;
      readMode := All;
      voiceId := None;
    }

    /**
     * _load_settings: the first voice whose name contains 'female', else the first voice;
     * the fallback is computed first, so an engine without voices raises.
     */
    method LoadSettings(voices: seq<Voices.Voice>) returns (raised: bool)
      modifies this
      ensures raised <==> voices == []
      ensures !raised ==> voiceId == Voices.Choose(voices, ["female"])
      ensures raised ==> voiceId == old(voiceId)
      ensures State() == old(State())
    {
      if voices == [] {
        return true;
      }
      raised := false;
      voiceId := Voices.ScanVoices(voices, ["female"]);
    }

    method SetContent(texts: seq<string>, startPage: int)
      modifies this
      ensures State() == SetContentSpec(old(State()), texts, startPage) && voiceId == old(voiceId)
    {
      textQueue, totalPages, currentPage := texts, |texts|, startPage;
    }

    method Play()
      modifies this
      ensures State() == PlaySpec(old(State())) && voiceId == old(voiceId)
    {
      if textQueue == [] {
        return;
      }
      if !alive {
        stopSet, pauseSet := false, false;
        alive := true;
        isPlaying := true;
      } else if !isPlaying {
        Resume();
      }
    }

    method Pause()
      modifies this
      ensures State() == PauseSpec(old(State())) && voiceId == old(voiceId)
    {
      pauseSet, isPlaying := true, false;
    }

    method Resume()
      modifies this
      ensures State() == ResumeSpec(old(State())) && voiceId == old(voiceId)
    {
      pauseSet, isPlaying := false, true;
    }

    method Stop()
      modifies this
      ensures State() == StopSpec(old(State())) && voiceId == old(voiceId)
    {
      stopSet, isPlaying := true, false;
    }

    method NextPage()
      modifies this
      ensures State() == NextSpec(old(State())) && voiceId == old(voiceId)
    {
      if currentPage < totalPages - 1 {
        currentPage := currentPage + 1;
        Play();
      }
    }

    method PrevPage()
      modifies this
      ensures State() == PrevSpec(old(State())) && voiceId == old(voiceId)
    {
      if currentPage > 0 {
        currentPage := currentPage - 1;
        Play();
      }
    }

    method FirstPage()
      modifies this
      ensures State() == FirstSpec(old(State())) && voiceId == old(voiceId)
    {
      currentPage := 0;
      Play();
    }

    method LastPage()
      modifies this
      ensures State() == LastSpec(old(State())) && voiceId == old(voiceId)
    {
      currentPage := totalPages - 1;
      Play();
    }

    method GetStatus() returns (playing: bool, page: int, total: int)
      ensures (playing, page, total) == Status(State())
    {
      return isPlaying, currentPage + 1, totalPages;
    }

    method Press(c: Command)
      modifies this
      ensures State() == Apply(old(State()), c) && voiceId == old(voiceId)
    {
      match c {
        case Idle =>
        case Play => Play();
        case Pause => Pause();
        case Resume => Resume();
        case Stop => Stop();
        case Next => NextPage();
        case Prev => PrevPage();
        case First => FirstPage();
        case Last => LastPage();
      }
    }

    /** The intended wait: take presses while the pause event is set and no stop is. */
    method WaitWhilePaused(script: seq<Command>, k: nat) returns (k2: nat, released: bool)
      requires k <= |script|
      modifies this
      ensures k <= k2 <= |script|
      ensures (State(), script[k2..], released) == Hold(old(State()), script[k..]) && voiceId == old(voiceId)
    {
      k2 := k;
      while pauseSet && !stopSet && k2 < |script|
        invariant k <= k2 <= |script| && voiceId == old(voiceId)
        invariant Hold(State(), script[k2..]) == Hold(old(State()), script[k..])
        decreases |script| - k2
      {
        assert script[k2..][1..] == script[k2 + 1..];
        Press(script[k2]);
        k2 := k2 + 1;
      }
      released := !(pauseSet && !stopSet);
    }

    /** One pass of `_run`'s loop body. */
    method ReadTurn(rule: PauseRule, script: seq<Command>, k: nat) returns (k2: nat, said: seq<Event>, end: TurnEnd)
      requires k <= |script|
      modifies this
      ensures k <= k2 <= |script| && voiceId == old(voiceId)
      ensures TurnSpec(rule, old(State()), script[k..]) == Turn(State(), script[k2..], said, end)
    {
      var released := true;
      k2 := k;
      if rule == WaitsWhilePaused {
        k2, released := WaitWhilePaused(script, k);
      }
      said := [];
      if !released {
        return k2, said, Hang;
      }
      if rule == WaitsWhilePaused && stopSet {
        return k2, said, Leave;
      }
      var text := PyIndex(textQueue, currentPage);
      if text.None? {
        alive := false;
        return k2, said, Crash;
      }
      said := [Speak(currentPage)];
      if k2 < |script| {
        assert script[k2..][1..] == script[k2 + 1..];
        Press(script[k2]);
        k2 := k2 + 1;
      }
      if readMode == CurrentOnly {
        Stop();
        return k2, said, Leave;
      }
      currentPage := currentPage + 1;
      end := Continue;
    }

    /** One pass of `_run`'s loop body, read as one step of the loop's specification. */
    method RunTurn(rule: PauseRule, script: seq<Command>, k: nat, log: seq<Event>)
      returns (k2: nat, log2: seq<Event>, end: TurnEnd)
      requires k <= |script| && currentPage < totalPages && !stopSet
      modifies this
      ensures k <= k2 <= |script| && voiceId == old(voiceId) && totalPages == old(totalPages)
      ensures end == Continue ==>
        (k < k2 || currentPage == old(currentPage) + 1)
        && ReadLoop(rule, old(State()), script[k..], log) == ReadLoop(rule, State(), script[k2..], log2)
      ensures end == Leave ==> ReadLoop(rule, old(State()), script[k..], log) == Finish(State(), log2, script[k2..])
      ensures end == Hang ==> ReadLoop(rule, old(State()), script[k..], log) == Run(State(), log2, script[k2..], Blocked)
      ensures end == Crash ==> ReadLoop(rule, old(State()), script[k..], log) == Run(State(), log2, script[k2..], Crashed)
    {
      ghost var s0 := State();
      var said;
      k2, said, end := ReadTurn(rule, script, k);
      LoopStep(rule, s0, script[k..], log, State(), script[k2..], said, end);
      log2 := log + said;
    }

    /** `_run`, the worker thread's body, with the pause wait following `rule`. */
    method RunWorker(rule: PauseRule, script: seq<Command>) returns (log: seq<Event>, outcome: Outcome)
      modifies this
      ensures var r := ReadLoop(rule, old(State()), script, []);
        State() == r.state && log == r.log && outcome == r.outcome && voiceId == old(voiceId)
    {
      var k := 0;
      log := [];
      ghost var goal := ReadLoop(rule, State(), script, []);
      while currentPage < totalPages && !stopSet
        invariant 0 <= k <= |script| && voiceId == old(voiceId)
        invariant ReadLoop(rule, State(), script[k..], log) == goal
        decreases |script| - k, totalPages - currentPage
      {
        var end;
        k, log, end := RunTurn(rule, script, k, log);
        if end == Hang {
          return log, Blocked;
        } else if end == Crash {
          return log, Crashed;
        } else if end == Leave {
          break;
        }
      }
      isPlaying, alive := false, false;
      log := log + [Finished];
      outcome := Ended;
    }

    /**
     * SettingsDialog.save_settings: the chosen mode; for 'from', a 1-based page inside
     * the content becomes the current page and any other entry is ignored; then the
     * chosen voice.
     */
    method SaveSettings(choice: ModeChoice, entry: string, voice: Option<string>)
      modifies this
      ensures readMode == (match choice case ChooseAll => All case ChooseCurrent => CurrentOnly case ChooseFrom => From)
      ensures currentPage == (if choice == ChooseFrom then FromEntryPage(entry, totalPages, old(currentPage)) else old(currentPage))
      ensures voiceId == voice
      ensures textQueue == old(textQueue) && totalPages == old(totalPages) && isPlaying == old(isPlaying)
      ensures stopSet == old(stopSet) && pauseSet == old(pauseSet) && alive == old(alive)
    {
      if choice == ChooseAll {
        readMode := All;
      } else if choice == ChooseCurrent {
        readMode := CurrentOnly;
      } else {
        readMode := From;
        currentPage := FromEntryPage(entry, totalPages, currentPage);
      }
      voiceId := voice;
    }
  }

  /**
   * `TTSPlayer()`: the fields, then _load_settings with the engine's `voices`. On an
   * engine without voices `_load_settings` raises IndexError, so `__init__` raises and
   * no player is built (`null`).
   */
  method CreatePlayer(voices: seq<Voices.Voice>) returns (p: TTSPlayer?)
    ensures p == null <==> voices == []
    ensures p != null ==> fresh(p) && p.State() == Initial && p.voiceId == Voices.Choose(voices, ["female"])
  {
    var q := new TTSPlayer();
    var raised := q.LoadSettings(voices);
    p := if raised then null else q;
  }
}
