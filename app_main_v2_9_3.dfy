/**
 * Version 2.9.3 of the reader (old/app_main_v2.9.3.py): a narration controller that
 * reads each page sentence by sentence. Pause and resume only raise request flags;
 * the worker honours them between sentences, holding on `resume_event` while paused,
 * and keeps `text_position`, the offset in the page reached so far.
 *
 * The worker thread is modelled sequentially, as for 2.9.6: a `script` lists the
 * commands the user gives, one while each sentence is spoken, and, while the worker
 * holds for a resume, one after another until one releases it. A worker still holding
 * when the script is used up waits for ever (`blocked`).
 */
module AppMainV293 {
  import opened Text
  import opened Sentences
  import opened ReadingRange

  datatype Command = Idle | Pause | Resume | Stop

  /** The `progress` signal, a sentence handed to the speech engine, and `finished`. */
  datatype Event = Progress(page: int) | Say(page: int, sentence: string) | Finished

  /** One flag each for pause, resume and stop. */
  datatype Flags = Flags(pause: bool, resume: bool, stop: bool)

  const NoFlags := Flags(false, false, false)

  /**
   * The controller's fields: `requested` holds pause_requested, resume_requested and
   * stop_requested, `events` whether each of the three threading.Event objects is set.
   */
  datatype Ctl = Ctl(
    totalPages: int,
    running: bool, paused: bool, shouldStop: bool,
    currentPage: int, startPage: int, textPosition: nat,
    readFrom: int, readTo: int,
    requested: Flags, events: Flags)

  /** A modelled worker run: final state, signals emitted, commands not yet given, and whether it waits for ever. */
  datatype Run = Run(state: Ctl, log: seq<Event>, rest: seq<Command>, blocked: bool)

  function StartSpec(s: Ctl): Ctl {
    if s.running then s
    else s.(running := true, paused := false, shouldStop := false,
            currentPage := s.readFrom, startPage := s.readFrom, textPosition := 0,
            events := NoFlags, requested := NoFlags)
  }

  function PauseSpec(s: Ctl): Ctl {
    if s.running && !s.paused then s.(requested := s.requested.(pause := true), events := s.events.(pause := true)) else s
  }

  function ResumeSpec(s: Ctl): Ctl {
    if s.running && s.paused then s.(requested := s.requested.(resume := true), events := s.events.(resume := true)) else s
  }

  function StopSpec(s: Ctl): Ctl {
    if s.running then
      s.(requested := s.requested.(stop := true), shouldStop := true, running := false, paused := false,
         events := Flags(true, true, true))
    else s
  }

  function Apply(s: Ctl, c: Command): (r: Ctl)
    ensures r.readTo == s.readTo && r.textPosition == s.textPosition && r.currentPage == s.currentPage
  {
    match c
    case Idle => s
    case Pause => PauseSpec(s)
    case Resume => ResumeSpec(s)
    case Stop => StopSpec(s)
  }

  /** The worker's stop test, `stop_requested or should_stop`. */
  predicate Stopping(s: Ctl) {
    s.requested.stop || s.shouldStop
  }

  /**
   * The buttons only ask: pause and resume never change whether the controller runs,
   * is paused, or where it reads; they raise their request under their guard, and
   * only stop acts at once.
   */
  lemma RequestsLeaveStateToWorker(s: Ctl)
    ensures var p := PauseSpec(s);
      p.running == s.running && p.paused == s.paused && p.currentPage == s.currentPage &&
      (p.requested.pause <==> s.requested.pause || (s.running && !s.paused))
    ensures var r := ResumeSpec(s);
      r.running == s.running && r.paused == s.paused && r.currentPage == s.currentPage &&
      (r.requested.resume <==> s.requested.resume || (s.running && s.paused))
    ensures s.running ==> !StopSpec(s).running && !StopSpec(s).paused && Stopping(StopSpec(s))
    ensures !s.running ==> StopSpec(s) == s
  {
  }

  /**
   * start_reading acts only on an idle controller, which then runs from the first page
   * of the range at text position 0 with every request and event cleared.
   */
  lemma StartResetsPosition(s: Ctl)
    ensures s.running ==> StartSpec(s) == s
    ensures !s.running ==> var t := StartSpec(s);
      t.running && !t.paused && !Stopping(t) && t.currentPage == s.readFrom && t.textPosition == 0 &&
      t.requested == NoFlags && t.events == NoFlags
  {
  }

  /** `resume_event.wait()` then `resume_event.clear()`; the flag says whether the wait ended. */
  function Await(s: Ctl, script: seq<Command>): (r: (Ctl, seq<Command>, bool))
    ensures r.0.readTo == s.readTo && r.0.textPosition == s.textPosition && r.0.currentPage == s.currentPage
    decreases |script|
  {
    if s.events.resume then (s.(events := s.events.(resume := false)), script, true)
    else if script == [] then (s, script, false)
    else Await(Apply(s, script[0]), script[1..])
  }

  /** _handle_pause: paused, the request consumed, then hold until resume_event. */
  function HandlePause(s: Ctl, script: seq<Command>): (r: (Ctl, seq<Command>, bool))
    ensures r.0.readTo == s.readTo && r.0.textPosition == s.textPosition && r.0.currentPage == s.currentPage
  {
    Await(s.(paused := true, requested := s.requested.(pause := false)), script)
  }

  /** _handle_resume: no longer paused, the request consumed. */
  function HandleResume(s: Ctl): Ctl {
    s.(paused := false, requested := s.requested.(resume := false))
  }

  /** `if self.resume_requested: self._handle_resume()`. */
  function Resumed(s: Ctl): Ctl {
    if s.requested.resume then HandleResume(s) else s
  }

  /** The command, if any is left, that the user gives while a sentence is spoken. */
  function Listen(s: Ctl, script: seq<Command>): (r: (Ctl, seq<Command>))
    ensures r.0.readTo == s.readTo && r.0.textPosition == s.textPosition && r.0.currentPage == s.currentPage
  {
    if script == [] then (s, script) else (Apply(s, script[0]), script[1..])
  }

  /** How the checks before a sentence end: speak it, leave the page on a stop, or wait for ever. */
  datatype Step = Go | Leave | Hang

  /** The checks before each sentence: a pending pause (holding until resume_event), a stop seen after it, a pending resume. */
  function Prepare(s: Ctl, script: seq<Command>): (r: (Ctl, seq<Command>, Step))
    ensures r.0.readTo == s.readTo && r.0.textPosition == s.textPosition && r.0.currentPage == s.currentPage
  {
    if s.requested.pause then
      var w := HandlePause(s, script);
      if !w.2 then (w.0, w.1, Hang)
      else if w.0.requested.stop then (w.0, w.1, Leave)
      else (Resumed(w.0), w.1, Go)
    else (Resumed(s), script, Go)
  }

  /**
   * The sentence loop of page `page` from sentence i, for the sentences `ss` of the
   * text from offset `start`: stop check, pending pause and resume, speaking, and the
   * new `text_position` after each non-blank sentence.
   */
  function Speak(s: Ctl, page: int, start: nat, ss: seq<string>, i: nat, script: seq<Command>, log: seq<Event>): (r: Run)
    requires i <= |ss|
    ensures r.state.readTo == s.readTo && r.state.currentPage == s.currentPage
    ensures Finished in r.log ==> Finished in log
    decreases |ss| - i, 1
  {
    if i == |ss| || Stopping(s) then Run(s, log, script, false)
    else SpeakTurn(s, page, start, ss, i, script, log)
  }

  /** Sentence i of the loop, after the stop check, then the rest of the loop. */
  function SpeakTurn(s: Ctl, page: int, start: nat, ss: seq<string>, i: nat, script: seq<Command>, log: seq<Event>): (r: Run)
    requires i < |ss|
    ensures r.state.readTo == s.readTo && r.state.currentPage == s.currentPage
    ensures Finished in r.log ==> Finished in log
    decreases |ss| - i, 0
  {
    var p := Prepare(s, script);
    if p.2 == Hang then Run(p.0, log, p.1, true)
    else if p.2 == Leave then Run(p.0, log, p.1, false)
    else if IsBlank(ss[i]) then Speak(p.0, page, start, ss, i + 1, p.1, log)
    else
      var l := Listen(p.0, p.1);
      Speak(l.0.(textPosition := start + |Join(ss[..i + 1], ' ')|), page, start, ss, i + 1, l.1, log + [Say(page, ss[i])])
  }

  /** What a page's sentence loop starts from: the sentences of the text after the saved position. */
  function PageSentences(text: string, start: nat): seq<string>
    requires start <= |text|
  {
    SplitIntoSentences(text[start..])
  }

  /** One turn of the page loop after its stop check: progress, the blank-page skip, the sentences, the position reset. */
  function PageTurn(s: Ctl, it: int, pages: seq<string>, script: seq<Command>, log: seq<Event>): (r: Run)
    ensures r.state.readTo == s.readTo
    ensures Finished in r.log ==> Finished in log
  {
    var s1 := s.(currentPage := it);
    var text := PageText(pages, it);
    var log1 := log + [Progress(it)];
    if IsBlank(text) then Run(s1, log1, script, false)
    else
      var start := s1.textPosition;
      var r := if start < |text| then Speak(s1, it, start, PageSentences(text, start), 0, script, log1)
               else Run(s1, log1, script, false);
      if r.blocked || r.state.paused then r else r.(state := r.state.(textPosition := 0))
  }

  /** The page loop `for page_num in range(current_page, read_to_page + 1)` from page `it`. */
  function Pages(s: Ctl, it: int, pages: seq<string>, script: seq<Command>, log: seq<Event>): (r: Run)
    ensures r.state.readTo == s.readTo
    ensures Finished in r.log ==> Finished in log
    decreases s.readTo + 1 - it
  {
    if it > s.readTo || Stopping(s) then Run(s, log, script, false)
    else
      var r := PageTurn(s, it, pages, script, log);
      if r.blocked then r else Pages(r.state, it + 1, pages, r.rest, r.log)
  }

  /** `_read_document`: the page loop, `finished` unless a stop was asked for, and the `finally` clause. */
  function ReadDocumentSpec(s: Ctl, pages: seq<string>, script: seq<Command>): Run {
    var r := Pages(s, s.currentPage, pages, script, []);
    if r.blocked then r
    else Run(r.state.(running := false, paused := false, textPosition := 0),
             if Stopping(r.state) then r.log else r.log + [Finished], r.rest, false)
  }

  // ---------------------------------------------------------------- properties of the worker

  /** A finished worker is idle at position 0, and reports `finished` exactly when no stop was asked for. */
  lemma WorkerEndsAtPositionZero(s: Ctl, pages: seq<string>, script: seq<Command>)
    ensures var r := ReadDocumentSpec(s, pages, script);
      !r.blocked ==> !r.state.running && !r.state.paused && r.state.textPosition == 0
    ensures var r := ReadDocumentSpec(s, pages, script);
      !r.blocked ==> (Finished in r.log <==> !Stopping(Pages(s, s.currentPage, pages, script, []).state))
  {
  }

  /** Positions recorded by the sentence loop never exceed a bound that every sentence end respects. */
  lemma {:induction false} PositionBounded(s: Ctl, page: int, start: nat, ss: seq<string>, i: nat, script: seq<Command>, log: seq<Event>, bound: int)
    requires i <= |ss| && s.textPosition <= bound
    requires forall k | i < k <= |ss| :: start + |Join(ss[..k], ' ')| <= bound
    ensures Speak(s, page, start, ss, i, script, log).state.textPosition <= bound
    decreases |ss| - i
  {
    if i < |ss| && !Stopping(s) {
      var p := Prepare(s, script);
      if p.2 == Go {
        if IsBlank(ss[i]) {
          PositionBounded(p.0, page, start, ss, i + 1, p.1, log, bound);
        } else {
          var l := Listen(p.0, p.1);
          PositionBounded(l.0.(textPosition := start + |Join(ss[..i + 1], ' ')|), page, start, ss, i + 1, l.1, log + [Say(page, ss[i])], bound);
        }
      }
    }
  }

  /**
   * `text_position` never leaves the page: in a page whose sentence loop starts at an
   * offset of the text, every position recorded after a sentence lies in the text.
   */
  lemma PositionStaysInText(s: Ctl, page: int, text: string, start: nat, script: seq<Command>, log: seq<Event>)
    requires start <= |text| && s.textPosition <= |text|
    ensures Speak(s, page, start, PageSentences(text, start), 0, script, log).state.textPosition <= |text|
  {
    var ss := PageSentences(text, start);
    forall k | 0 < k <= |ss| ensures start + |Join(ss[..k], ' ')| <= |text| {
      SentencePositionBound(text[start..], k);
    }
    PositionBounded(s, page, start, ss, 0, script, log, |text|);
  }

  /** The speech events of the sentences ss[i..] of a page: every non-blank sentence, in order. */
  function Says(page: int, ss: seq<string>, i: nat): seq<Event>
    requires i <= |ss|
    decreases |ss| - i
  {
    if i == |ss| then [] else (if IsBlank(ss[i]) then [] else [Say(page, ss[i])]) + Says(page, ss, i + 1)
  }

  /** The events of an uninterrupted reading of pages lo..hi: progress, then each sentence of a non-blank page. */
  function Expected(pages: seq<string>, lo: int, hi: int): seq<Event>
    decreases hi + 1 - lo
  {
    if lo > hi then [] else PageEvents(pages, lo) + Expected(pages, lo + 1, hi)
  }

  lemma AppendAssociates(a: seq<Event>, b: seq<Event>, c: seq<Event>)
    ensures a + b + c == a + (b + c)
  {
  }

  lemma ExpectedStep(pages: seq<string>, lo: int, hi: int)
    requires lo <= hi
    ensures Expected(pages, lo, hi) == PageEvents(pages, lo) + Expected(pages, lo + 1, hi)
  {
  }

  /** The events of reading page p in full: its progress event, then each of its sentences unless it is blank. */
  function PageEvents(pages: seq<string>, p: int): seq<Event> {
    var text := PageText(pages, p);
    [Progress(p)] + (if IsBlank(text) then [] else Says(p, SplitIntoSentences(text), 0))
  }

  /** Running, not paused, no stop asked for and no resume pending: the state between sentences. */
  predicate Quiet(s: Ctl) {
    s.running && !s.paused && !Stopping(s) && !s.requested.resume && !s.events.resume
  }

  /** The user's commands hold no stop. */
  predicate NoStop(script: seq<Command>) {
    forall k | 0 <= k < |script| :: script[k] != Stop
  }

  /** Commands other than stop keep the worker quiet between sentences; a pause only raises its request. */
  lemma ListenKeepsQuiet(s: Ctl, script: seq<Command>)
    requires Quiet(s) && NoStop(script)
    ensures Quiet(Listen(s, script).0) && NoStop(Listen(s, script).1)
    ensures Listen(s, script).0.textPosition == s.textPosition
  {
  }

  /** Held for a resume without stop commands, the worker is released exactly by the first resume. */
  lemma {:induction false} AwaitReleasedByResume(s: Ctl, script: seq<Command>)
    requires s.running && s.paused && !Stopping(s) && !s.requested.resume && !s.events.resume && NoStop(script)
    ensures var w := Await(s, script);
      w.2 ==> w.0 == s.(requested := s.requested.(resume := true)) && NoStop(w.1)
    decreases |script|
  {
    if script != [] && script[0] != Resume {
      assert Apply(s, script[0]) == s;
      assert NoStop(script[1..]) by {
        forall k | 0 <= k < |script[1..]| ensures script[1..][k] != Stop {
          assert script[1..][k] == script[k + 1];
        }
      }
      AwaitReleasedByResume(s, script[1..]);
    }
  }

  /** A pause requested between sentences holds the worker until a resume, then goes on exactly as before. */
  lemma PrepareKeepsQuiet(s: Ctl, script: seq<Command>)
    requires Quiet(s) && NoStop(script)
    ensures var p := Prepare(s, script);
      p.2 != Leave && (p.2 == Go ==> p.0 == s.(requested := s.requested.(pause := false)) && NoStop(p.1))
  {
    if s.requested.pause {
      AwaitReleasedByResume(s.(paused := true, requested := s.requested.(pause := false)), script);
    }
  }

  /**
   * Pausing and resuming in the middle of a page loses no sentence: without a stop,
   * the sentence loop speaks every non-blank sentence from i on, in order, and leaves
   * the worker quiet, unless it waits for ever for a resume.
   */
  lemma {:induction false} SpeakSaysEverySentence(s: Ctl, page: int, start: nat, ss: seq<string>, i: nat, script: seq<Command>, log: seq<Event>)
    requires i <= |ss| && Quiet(s) && NoStop(script)
    ensures var r := Speak(s, page, start, ss, i, script, log);
      !r.blocked ==> r.log == log + Says(page, ss, i) && Quiet(r.state) && NoStop(r.rest)
    decreases |ss| - i
  {
    if i < |ss| {
      var p := Prepare(s, script);
      PrepareKeepsQuiet(s, script);
      if p.2 == Go {
        if IsBlank(ss[i]) {
          SpeakSaysEverySentence(p.0, page, start, ss, i + 1, p.1, log);
        } else {
          var l := Listen(p.0, p.1);
          ListenKeepsQuiet(p.0, p.1);
          var s2 := l.0.(textPosition := start + |Join(ss[..i + 1], ' ')|);
          SpeakSaysEverySentence(s2, page, start, ss, i + 1, l.1, log + [Say(page, ss[i])]);
          assert log + [Say(page, ss[i])] + Says(page, ss, i + 1) == log + Says(page, ss, i);
        }
      }
    }
  }

  /** One page read from a quiet state at position 0 yields its progress event and all of its sentences. */
  lemma PageTurnReadsPage(s: Ctl, it: int, pages: seq<string>, script: seq<Command>, log: seq<Event>)
    requires Quiet(s) && s.textPosition == 0 && NoStop(script)
    ensures var r := PageTurn(s, it, pages, script, log);
      !r.blocked ==> r.log == log + PageEvents(pages, it) && Quiet(r.state) && r.state.textPosition == 0 && NoStop(r.rest)
  {
    var text := PageText(pages, it);
    var s1 := s.(currentPage := it);
    var log1 := log + [Progress(it)];
    var r := PageTurn(s, it, pages, script, log);
    if IsBlank(text) {
      assert r == Run(s1, log1, script, false);
      assert PageEvents(pages, it) == [Progress(it)];
    } else {
      assert text[0..] == text;
      var ss := PageSentences(text, 0);
      assert ss == SplitIntoSentences(text);
      var rs := Speak(s1, it, 0, ss, 0, script, log1);
      SpeakSaysEverySentence(s1, it, 0, ss, 0, script, log1);
      assert r == if rs.blocked || rs.state.paused then rs else rs.(state := rs.state.(textPosition := 0));
      AppendAssociates(log, [Progress(it)], Says(it, ss, 0));
    }
  }

  /** The page loop from a quiet state at position 0 reads every page of the range in full, unless it waits for ever. */
  lemma {:induction false} PagesReadEverything(s: Ctl, it: int, pages: seq<string>, script: seq<Command>, log: seq<Event>)
    requires Quiet(s) && s.textPosition == 0 && NoStop(script)
    ensures var r := Pages(s, it, pages, script, log);
      !r.blocked ==> r.log == log + Expected(pages, it, s.readTo) && !Stopping(r.state)
    decreases s.readTo + 1 - it
  {
    if it <= s.readTo {
      var r := PageTurn(s, it, pages, script, log);
      PageTurnReadsPage(s, it, pages, script, log);
      if !r.blocked {
        PagesReadEverything(r.state, it + 1, pages, r.rest, r.log);
        var here, later := PageEvents(pages, it), Expected(pages, it + 1, s.readTo);
        ExpectedStep(pages, it, s.readTo);
        AppendAssociates(log, here, later);
      }
    }
  }

  /**
   * However often the user pauses and resumes, a run without a stop that is not left
   * waiting reads the range from the start page to `read_to_page` completely, every
   * sentence once and in order, and then reports `finished`.
   */
  lemma PauseResumeLosesNothing(s0: Ctl, pages: seq<string>, script: seq<Command>)
    requires !s0.running && NoStop(script)
    ensures var s := StartSpec(s0);
      var r := ReadDocumentSpec(s, pages, script);
      !r.blocked ==> r.log == Expected(pages, s0.readFrom, s0.readTo) + [Finished]
  {
    var s := StartSpec(s0);
    assert Quiet(s) && s.textPosition == 0;
    PagesReadEverything(s, s.currentPage, pages, script, []);
    var r := Pages(s, s.currentPage, pages, script, []);
    assert !r.blocked ==> r.log == Expected(pages, s0.readFrom, s0.readTo) && !Stopping(r.state);
  }

  // ---------------------------------------------------------------- the controller

  class TTSController {
    var totalPages: int
    var running: bool
    var paused: bool
    var shouldStop: bool
    var currentPage: int
    var startPage: int
    var textPosition: nat
    var readFrom: int
    var readTo: int
    /** pause_requested, resume_requested and stop_requested. */
    var requested: Flags
    /** Whether pause_event, resume_event and stop_event are set. */
    var events: Flags

    function State(): Ctl
      reads this
    {
      Ctl(totalPages, running, paused, shouldStop, currentPage, startPage, textPosition, readFrom, readTo,
          requested, events)
    }

    /** A new controller reads the whole document and is idle. */
    constructor(totalPages: int)
      ensures State() == Ctl(totalPages, false, false, false, 0, 0, 0, 0, totalPages - 1, NoFlags, NoFlags)
    {
      this.totalPages := totalPages;
      running, paused, shouldStop := false, false, false;
      currentPage, startPage, textPosition := 0, 0, 0;
      readFrom, readTo := 0, totalPages - 1;
      requested, events := NoFlags, NoFlags;
    }

    method SetReadRange(fromPage: int, toPage: Option<int>)
      modifies this
      ensures State() == old(State()).(readFrom := ReadRange(totalPages, fromPage, toPage).0,
                                       readTo := ReadRange(totalPages, fromPage, toPage).1)
    {
      readFrom := Max(0, Min(fromPage, totalPages - 1));
      if toPage.None? {
        readTo := totalPages - 1;
      } else {
        readTo := Max(readFrom, Min(toPage.value, totalPages - 1));
      }
    }

    /** start_reading; the worker it launches is `ReadDocument`. */
    method StartReading()
      modifies this
      ensures State() == StartSpec(old(State()))
    {
      if running {
        return;
      }
      running, paused, shouldStop := true, false, false;
      currentPage, startPage, textPosition := readFrom, readFrom, 0;
      events, requested := NoFlags, NoFlags;
    }

    method PauseReading()
      modifies this
      ensures State() == PauseSpec(old(State()))
    {
      if running && !paused {
        requested := requested.(pause := true);
        events := events.(pause := true);
      }
    }

    method ResumeReading()
      modifies this
      ensures State() == ResumeSpec(old(State()))
    {
      if running && paused {
        requested := requested.(resume := true);
        events := events.(resume := true);
      }
    }

    method StopReading()
      modifies this
      ensures State() == StopSpec(old(State()))
    {
      if running {
        requested, shouldStop, running, paused := requested.(stop := true), true, false, false;
        events := Flags(true, true, true);
      }
    }

    method Deliver(c: Command)
      modifies this
      ensures State() == Apply(old(State()), c)
    {
      match c {
        case Idle =>
        case Pause => PauseReading();
        case Resume => ResumeReading();
        case Stop => StopReading();
      }
    }

    /** _handle_pause: paused, request consumed, then commands arrive until resume_event is set. */
    method HoldForResume(script: seq<Command>, k: nat) returns (k2: nat, released: bool)
      requires k <= |script|
      modifies this
      ensures k <= k2 <= |script|
      ensures (State(), script[k2..], released) == HandlePause(old(State()), script[k..])
    {
      paused := true;
      requested := requested.(pause := false);
      k2 := k;
      while !events.resume && k2 < |script|
        invariant k <= k2 <= |script|
        invariant Await(State(), script[k2..]) == HandlePause(old(State()), script[k..])
        decreases |script| - k2
      {
        assert script[k2..][1..] == script[k2 + 1..];
        Deliver(script[k2]);
        k2 := k2 + 1;
      }
      released := events.resume;
      if released {
        events := events.(resume := false);
      }
    }

    /** The command, if any is left, that the user gives while a sentence is spoken. */
    method ListenWhileSpeaking(script: seq<Command>, k: nat) returns (k2: nat)
      requires k <= |script|
      modifies this
      ensures k <= k2 <= |script|
      ensures (State(), script[k2..]) == Listen(old(State()), script[k..])
    {
      k2 := k;
      if k < |script| {
        assert script[k..][1..] == script[k + 1..];
        Deliver(script[k]);
        k2 := k + 1;
      }
    }

    /** The checks before a sentence: a pending pause, the stop test after it, a pending resume. */
    method PrepareSentence(script: seq<Command>, k: nat) returns (k2: nat, step: Step)
      requires k <= |script|
      modifies this
      ensures k <= k2 <= |script|
      ensures (State(), script[k2..], step) == Prepare(old(State()), script[k..])
    {
      k2, step := k, Go;
      if requested.pause {
        var released;
        k2, released := HoldForResume(script, k);
        if !released {
          return k2, Hang;
        }
        if requested.stop {
          return k2, Leave;
        }
      }
      if requested.resume {
        paused := false;
        requested := requested.(resume := false);
      }
    }

    /** One turn of the sentence loop, after its stop check. */
    method ReadSentence(page: int, start: nat, ss: seq<string>, i: nat, script: seq<Command>, k: nat, log: seq<Event>)
      returns (k2: nat, log2: seq<Event>, leave: bool, blocked: bool)
      requires i < |ss| && k <= |script| && !Stopping(State())
      modifies this
      ensures k <= k2 <= |script| && (blocked ==> leave)
      ensures var r := Speak(old(State()), page, start, ss, i, script[k..], log);
        if leave then Run(State(), log2, script[k2..], blocked) == r
        else Speak(State(), page, start, ss, i + 1, script[k2..], log2) == r
    {
      var step;
      k2, step := PrepareSentence(script, k);
      log2, leave, blocked := log, step != Go, step == Hang;
      if step == Go && !IsBlank(ss[i]) {
        log2 := log2 + [Say(page, ss[i])];
        k2 := ListenWhileSpeaking(script, k2);
        textPosition := start + |Join(ss[..i + 1], ' ')|;
      }
    }

    /** The sentence loop of a page. */
    method ReadSentences(page: int, start: nat, ss: seq<string>, script: seq<Command>, k: nat, log: seq<Event>)
      returns (k2: nat, log2: seq<Event>, blocked: bool)
      requires k <= |script|
      modifies this
      ensures k <= k2 <= |script|
      ensures Run(State(), log2, script[k2..], blocked) == Speak(old(State()), page, start, ss, 0, script[k..], log)
    {
      k2, log2, blocked := k, log, false;
      var i := 0;
      while i < |ss|
        invariant 0 <= i <= |ss| && k <= k2 <= |script| && !blocked
        invariant Speak(State(), page, start, ss, i, script[k2..], log2) == Speak(old(State()), page, start, ss, 0, script[k..], log)
        decreases |ss| - i
      {
        if requested.stop || shouldStop {
          return;
        }
        var leave;
        k2, log2, leave, blocked := ReadSentence(page, start, ss, i, script, k2, log2);
        if leave {
          return;
        }
        i := i + 1;
      }
    }

    /** One turn of the page loop, after its stop check: progress, blank-page skip, the sentences, the position reset. */
    method ReadPage(pages: seq<string>, script: seq<Command>, k: nat, log: seq<Event>, it: int)
      returns (k2: nat, log2: seq<Event>, blocked: bool)
      requires k <= |script|
      modifies this
      ensures k <= k2 <= |script|
      ensures Run(State(), log2, script[k2..], blocked) == PageTurn(old(State()), it, pages, script[k..], log)
    {
      k2, log2, blocked := k, log, false;
      currentPage := it;
      log2 := log2 + [Progress(it)];
      var text := PageText(pages, it);
      if IsBlank(text) {
        return;
      }
      var start := textPosition;
      if start < |text| {
        k2, log2, blocked := ReadSentences(it, start, PageSentences(text, start), script, k2, log2);
        if blocked {
          return;
        }
      }
      if !paused {
        textPosition := 0;
      }
    }

    /** `_read_document`, the worker thread's body. */
    method ReadDocument(pages: seq<string>, script: seq<Command>) returns (log: seq<Event>, blocked: bool)
      modifies this
      ensures var r := ReadDocumentSpec(old(State()), pages, script);
        State() == r.state && log == r.log && blocked == r.blocked
    {
      var k := 0;
      log, blocked := [], false;
      var it := currentPage;
      ghost var goal := Pages(State(), currentPage, pages, script, []);
      while it <= readTo
        invariant 0 <= k <= |script| && !blocked
        invariant Pages(State(), it, pages, script[k..], log) == goal
        decreases readTo + 1 - it
      {
        if requested.stop || shouldStop {
          break;
        }
        k, log, blocked := ReadPage(pages, script, k, log, it);
        if blocked {
          return;
        }
        it := it + 1;
      }
      if !requested.stop && !shouldStop {
        log := log + [Finished];
      }
      running, paused, textPosition := false, false, 0;
    }
  }

  // ---------------------------------------------------------------- the player widget

  /**
   * start_reading's range for the mode of the checked radio button; the three fixed
   * modes select what set_read_mode selects for them.
   */
  lemma StartModesMatchSetReadMode(mode: ReadMode, current: int, totalPages: int, oldFrom: int)
    requires mode != Range && 0 <= current < totalPages && 0 <= oldFrom < totalPages
    ensures RangeInDocument(ModeRange(mode, current, totalPages, oldFrom, None, None), totalPages)
    ensures mode == Current ==> ModeRange(mode, current, totalPages, oldFrom, None, None) == (current, totalPages - 1)
    ensures mode == OnlyCurrent ==> ModeRange(mode, current, totalPages, oldFrom, None, None) == (current, current)
    ensures mode == All ==> ModeRange(mode, current, totalPages, oldFrom, None, None) == (0, totalPages - 1)
  {
    ModeRangeMeaning(mode, current, totalPages, oldFrom, None, None);
  }

  class TTSPlayerWidget {
    const controller: TTSController
    var totalPages: int
    var currentPage: int
    var readMode: ReadMode
    var readFromPage: int
    var readToPage: int

    predicate Valid()
      reads this
    {
      0 <= currentPage < totalPages && RangeInDocument((readFromPage, readToPage), totalPages)
    }

    constructor(totalPages: int, currentPage: int)
      requires 0 <= currentPage < totalPages
      ensures Valid() && fresh(controller) && controller.totalPages == totalPages && !controller.running
      ensures this.totalPages == totalPages && this.currentPage == currentPage && readMode == Current
      ensures readFromPage == currentPage && readToPage == totalPages - 1
    {
      this.totalPages := totalPages;
      this.currentPage := currentPage;
      readMode := Current;
      readFromPage := currentPage;
      readToPage := totalPages - 1;
      controller := new TTSController(totalPages);
    }

    method SetReadMode(mode: ReadMode, fromPage: Option<int>, toPage: Option<int>)
      requires Valid()
      modifies this
      ensures Valid() && readMode == mode
      ensures (readFromPage, readToPage) == ModeRange(mode, old(currentPage), totalPages, old(readFromPage), fromPage, toPage)
      ensures totalPages == old(totalPages) && currentPage == old(currentPage)
    {
      ModeRangeMeaning(mode, currentPage, totalPages, readFromPage, fromPage, toPage);
      readMode := mode;
      match mode {
        case All =>
          readFromPage, readToPage := 0, totalPages - 1;
        case OnlyCurrent =>
          readFromPage, readToPage := currentPage, currentPage;
        case Range =>
          if fromPage.Some? {
            readFromPage := Max(0, Min(fromPage.value, totalPages - 1));
          }
          if toPage.Some? {
            readToPage := Max(readFromPage, Min(toPage.value, totalPages - 1));
          } else {
            readToPage := totalPages - 1;
          }
        case Current =>
          readFromPage, readToPage := currentPage, totalPages - 1;
      }
    }

    /** on_main_page_changed: the widget follows the main window's page. */
    method FollowMainPage(page: int)
      requires Valid() && 0 <= page < totalPages
      modifies this
      ensures Valid() && currentPage == page
      ensures totalPages == old(totalPages) && readMode == old(readMode)
      ensures readFromPage == old(readFromPage) && readToPage == old(readToPage)
    {
      currentPage := page;
    }

    /** pause_reading: forwarded only while reading and not yet paused, the controller's own guard. */
    method PauseReading()
      modifies controller
      ensures controller.State() == PauseSpec(old(controller.State()))
    {
      if controller.running && !controller.paused {
        controller.PauseReading();
      }
    }

    /** resume_reading: forwarded only once the worker has taken the pause. */
    method ResumeReading()
      modifies controller
      ensures controller.State() == ResumeSpec(old(controller.State()))
    {
      if controller.running && controller.paused {
        controller.ResumeReading();
      }
    }

    /** update_buttons; `settings` stands for the four mode buttons, enabled when idle. */
    method UpdateButtons() returns (b: Buttons)
      ensures b == EnabledButtons(controller.running, controller.paused)
    {
      var running, paused := controller.running, controller.paused;
      b := Buttons(!running, running && !paused, running && paused, running, !running);
    }

    /**
     * start_reading with the mode of the checked radio button: the range mode, before
     * any range was configured, opens the settings dialog instead of starting.
     */
    method StartReading(checked: ReadMode) returns (openedSettings: bool)
      requires Valid() && controller.totalPages == totalPages
      modifies this, controller
      ensures Valid() && readMode == old(readMode) && currentPage == old(currentPage) && totalPages == old(totalPages)
      ensures openedSettings <==> checked == Range && old(readMode) != Range
      ensures openedSettings ==> (readFromPage == old(readFromPage) && readToPage == old(readToPage)
        && controller.State() == old(controller.State()))
      ensures checked != Range ==> (
        (readFromPage, readToPage) == ModeRange(checked, currentPage, totalPages, old(readFromPage), None, None))
      ensures !openedSettings ==> (
        controller.State() == StartSpec(old(controller.State()).(readFrom := readFromPage, readTo := readToPage)))
    {
      match checked {
        case Current =>
          readFromPage, readToPage := currentPage, totalPages - 1;
        case OnlyCurrent =>
          readFromPage, readToPage := currentPage, currentPage;
        case All =>
          readFromPage, readToPage := 0, totalPages - 1;
        case Range =>
          if readMode != Range {
            return true;
          }
      }
      openedSettings := false;
      ReadRangeKeepsValidRange(totalPages, (readFromPage, readToPage));
      controller.SetReadRange(readFromPage, Some(readToPage));
      controller.StartReading();
    }
  }
}
