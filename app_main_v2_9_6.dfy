/**
 * Version 2.9.6 of the reader (app_main_v2.9.6.py): the narration controller
 * `TTSController`, its worker `_read_document`, and the player widget's reading modes
 * and buttons.
 *
 * The worker thread is modelled sequentially. A `script` lists the commands the user
 * gives: one arrives while each non-blank page is being spoken, and while the worker
 * waits for a resume, commands arrive one after another until one of them releases
 * it. Once the script is used up, no further command arrives; a worker still waiting
 * then waits for ever (outcome `Blocked`). The outer `while` repeats only in loop
 * mode, and `passes` bounds the number of passes modelled.
 */
module AppMainV296 {
  import opened Text
  import opened ReadingRange

  /** A command the user gives through the player's buttons. */
  datatype Command = Idle | Pause | Resume | Stop

  /** What the worker reports: the `progress` signal, a page handed to the speech engine, and `finished`. */
  datatype Event = Progress(page: int) | Speak(page: int) | Finished

  /** How a modelled worker run ends: it returned, it waits for ever, or the pass bound was reached. */
  datatype Outcome = Ended | Blocked | OutOfPasses

  /** Where the page scan goes on after a pause: the source's `for` iterator, or the page actually re-read. */
  datatype ResumeRule = ContinueIterator | FollowCurrentPage

  /** The controller's fields; `pausedAt` is `paused_at_page`, the three events are the threading.Event flags. */
  datatype Ctl = Ctl(
    totalPages: int,
    running: bool, paused: bool, shouldStop: bool,
    currentPage: int, readFrom: int, readTo: int,
    pausedAt: Option<int>, loopReading: bool,
    pauseEvent: bool, resumeEvent: bool, stopEvent: bool)

  /** How one turn of the page loop ends: on to the next page, out of the loop, or waiting for ever. */
  datatype Step = NextTurn | LeaveLoop | Hang

  /** The result of a modelled worker run: final state, signals emitted, commands not yet given, outcome. */
  datatype Run = Run(state: Ctl, log: seq<Event>, rest: seq<Command>, outcome: Outcome)

  function StartSpec(s: Ctl): Ctl {
    if s.running then s
    else s.(running := true, paused := false, shouldStop := false, currentPage := s.readFrom,
            pauseEvent := false, resumeEvent := false, stopEvent := false)
  }

  function PauseSpec(s: Ctl): Ctl {
    if s.running && !s.paused then s.(paused := true, pausedAt := Some(s.currentPage), pauseEvent := true)
    else s
  }

  function ResumeSpec(s: Ctl): Ctl {
    if s.running && s.paused then
      var t := if s.pausedAt.Some? then s.(currentPage := s.pausedAt.value, pausedAt := None) else s;
      t.(paused := false, pauseEvent := false, resumeEvent := true)
    else s
  }

  function StopSpec(s: Ctl): Ctl {
    if s.running then
      s.(shouldStop := true, running := false, paused := false, stopEvent := true, pauseEvent := true, resumeEvent := true)
    else s
  }

  /** The effect of one command on the controller. */
  function Apply(s: Ctl, c: Command): (r: Ctl)
    ensures r.readFrom == s.readFrom && r.readTo == s.readTo && r.loopReading == s.loopReading
  {
    match c
    case Idle => s
    case Pause => PauseSpec(s)
    case Resume => ResumeSpec(s)
    case Stop => StopSpec(s)
  }

  /** A paused controller is running and remembers the page it paused on, and its pause event is set. */
  predicate Consistent(s: Ctl) {
    s.paused ==> s.running && s.pausedAt.Some? && s.pauseEvent
  }

  /**
   * Each command acts only under its guard: start when not running; pause when running
   * and not paused, recording the current page; resume when running and paused, going
   * back to the recorded page; stop when running, leaving the controller stopped.
   */
  lemma CommandGuards(s: Ctl)
    ensures StartSpec(s) != s <==> !s.running
    ensures !s.running ==> StartSpec(s).running && !StartSpec(s).paused && !StartSpec(s).shouldStop && StartSpec(s).currentPage == s.readFrom
    ensures PauseSpec(s) != s <==> s.running && !s.paused
    ensures s.running && !s.paused ==> PauseSpec(s).paused && PauseSpec(s).pausedAt == Some(s.currentPage)
    ensures ResumeSpec(s) != s <==> s.running && s.paused
    ensures s.running && s.paused && s.pausedAt.Some? ==>
      !ResumeSpec(s).paused && ResumeSpec(s).currentPage == s.pausedAt.value && ResumeSpec(s).pausedAt == None
    ensures StopSpec(s) != s <==> s.running
    ensures s.running ==> !StopSpec(s).running && !StopSpec(s).paused && StopSpec(s).shouldStop
  {
  }

  /** Every command keeps the controller consistent. */
  lemma CommandsKeepConsistent(s: Ctl, c: Command)
    requires Consistent(s)
    ensures Consistent(Apply(s, c)) && Consistent(StartSpec(s))
  {
  }

  /** `resume_event.wait()` followed by `resume_event.clear()`; the flag says whether the wait ended. */
  function AwaitResume(s: Ctl, script: seq<Command>): (r: (Ctl, seq<Command>, bool))
    ensures |r.1| <= |script|
    ensures r.0.readFrom == s.readFrom && r.0.readTo == s.readTo && r.0.loopReading == s.loopReading
    ensures r.2 ==> !r.0.resumeEvent
    ensures r.2 && |r.1| == |script| ==> s.resumeEvent
    decreases |script|
  {
    if s.resumeEvent then (s.(resumeEvent := false), script, true)
    else if script == [] then (s, script, false)
    else AwaitResume(Apply(s, script[0]), script[1..])
  }

  /** The command given while a page is spoken, if any is left. */
  function Listen(s: Ctl, script: seq<Command>): (r: (Ctl, seq<Command>))
    ensures r.0.readFrom == s.readFrom && r.0.readTo == s.readTo && r.0.loopReading == s.loopReading
  {
    if script == [] then (s, script) else (Apply(s, script[0]), script[1..])
  }

  /** The `for` iterator's next value after page `page` was handled at iterator value `it`. */
  function NextIt(rule: ResumeRule, it: int, page: int): int {
    match rule
    case ContinueIterator => it + 1
    case FollowCurrentPage => page + 1
  }

  /** One turn of the page loop: the state after it, the iterator's next value, the commands left, the signals, and how it ends. */
  datatype Turn = Turn(state: Ctl, next: int, rest: seq<Command>, said: seq<Event>, step: Step)

  /**
   * One turn of the `for page_num in range(start_page, read_to_page + 1)` loop at
   * iterator value `it`, after the stop check: pause wait, progress, skip of a blank
   * page, speaking. Each turn that goes on either uses up a command, or consumes the
   * pending resume, or moves the iterator one step.
   */
  function PageTurn(rule: ResumeRule, s: Ctl, it: int, pages: seq<string>, script: seq<Command>): (t: Turn)
    ensures |t.rest| <= |script|
    ensures t.state.readFrom == s.readFrom && t.state.readTo == s.readTo && t.state.loopReading == s.loopReading
    ensures Finished !in t.said
    ensures t.step == NextTurn ==>
      |t.rest| < |script| || (s.resumeEvent && !t.state.resumeEvent) || (t.state.resumeEvent == s.resumeEvent && t.next == it + 1)
  {
    var w := if s.pauseEvent then AwaitResume(s, script) else (s, script, true);
    if !w.2 then Turn(w.0, it, w.1, [], Hang)
    else if s.pauseEvent && w.0.shouldStop then Turn(w.0, it, w.1, [], LeaveLoop)
    else
      var page := if s.pauseEvent then w.0.currentPage else it;
      var s1 := w.0.(currentPage := page);
      if IsBlank(PageText(pages, page)) then Turn(s1, NextIt(rule, it, page), w.1, [Progress(page)], NextTurn)
      else
        var l := Listen(s1, w.1);
        Turn(l.0, NextIt(rule, it, page), l.1, [Progress(page), Speak(page)], NextTurn)
  }

  /** The page loop from iterator value `it` to the end of the range, or until a stop or a wait that never ends. */
  function Pages(rule: ResumeRule, s: Ctl, it: int, pages: seq<string>, script: seq<Command>, log: seq<Event>): (r: Run)
    ensures r.state.readFrom == s.readFrom && r.state.readTo == s.readTo && r.state.loopReading == s.loopReading
    ensures r.outcome != OutOfPasses
    ensures log <= r.log && forall i | |log| <= i < |r.log| :: r.log[i] != Finished
    decreases |script|, if s.resumeEvent then 1 else 0, s.readTo + 1 - it, 1
  {
    if it > s.readTo || s.shouldStop then Run(s, log, script, Ended)
    else AfterTurn(rule, s, it, pages, script, log)
  }

  /** The page loop from a turn it takes: the turn, then the rest of the loop if the turn went on. */
  function AfterTurn(rule: ResumeRule, s: Ctl, it: int, pages: seq<string>, script: seq<Command>, log: seq<Event>): (r: Run)
    requires it <= s.readTo
    ensures r.state.readFrom == s.readFrom && r.state.readTo == s.readTo && r.state.loopReading == s.loopReading
    ensures r.outcome != OutOfPasses
    ensures log <= r.log && forall i | |log| <= i < |r.log| :: r.log[i] != Finished
    decreases |script|, if s.resumeEvent then 1 else 0, s.readTo + 1 - it, 0
  {
    var t := PageTurn(rule, s, it, pages, script);
    match t.step
    case Hang => Run(t.state, log, t.rest, Blocked)
    case LeaveLoop => Run(t.state, log, t.rest, Ended)
    case NextTurn => Pages(rule, t.state, t.next, pages, t.rest, log + t.said)
  }

  /** The page loop, one turn unfolded. */
  lemma PagesTurn(rule: ResumeRule, s: Ctl, it: int, pages: seq<string>, script: seq<Command>, log: seq<Event>)
    requires it <= s.readTo && !s.shouldStop
    ensures var t := PageTurn(rule, s, it, pages, script);
      Pages(rule, s, it, pages, script, log)
      == match t.step
         case NextTurn => Pages(rule, t.state, t.next, pages, t.rest, log + t.said)
         case LeaveLoop => Run(t.state, log, t.rest, Ended)
         case Hang => Run(t.state, log, t.rest, Blocked)
  {
  }

  /** The page loop after the last page of the range, or once a stop was asked for. */
  lemma PagesEnded(rule: ResumeRule, s: Ctl, it: int, pages: seq<string>, script: seq<Command>, log: seq<Event>)
    requires it > s.readTo || s.shouldStop
    ensures Pages(rule, s, it, pages, script, log) == Run(s, log, script, Ended)
  {
  }

  /** One turn of the page loop under the iterator rule, read off the state, commands and log that follow it. */
  lemma ContinueTurn(s: Ctl, it: int, pages: seq<string>, script: seq<Command>, log: seq<Event>,
                     s2: Ctl, rest: seq<Command>, log2: seq<Event>, step: Step)
    requires it <= s.readTo && !s.shouldStop
    requires var t := PageTurn(ContinueIterator, s, it, pages, script);
      s2 == t.state && rest == t.rest && log2 == log + t.said && step == t.step && (step == NextTurn ==> t.next == it + 1)
    ensures |rest| <= |script| && s2.readTo == s.readTo
    ensures step == NextTurn ==>
      (|rest| < |script| || (s.resumeEvent && !s2.resumeEvent) || s2.resumeEvent == s.resumeEvent)
      && Pages(ContinueIterator, s, it, pages, script, log) == Pages(ContinueIterator, s2, it + 1, pages, rest, log2)
    ensures step != NextTurn ==>
      Pages(ContinueIterator, s, it, pages, script, log) == Run(s2, log, rest, if step == Hang then Blocked else Ended)
  {
    PagesTurn(ContinueIterator, s, it, pages, script, log);
  }

  /** What the `finally` clause and the `finished` signal leave behind. */
  function Finish(s: Ctl, log: seq<Event>, script: seq<Command>): (r: Run)
    ensures !r.state.running && !r.state.paused && r.outcome == Ended
  {
    Run(s.(running := false, paused := false), if s.shouldStop then log else log + [Finished], script, Ended)
  }

  /** The outer `while not should_stop` loop of `_read_document`, for at most `passes` passes. */
  function Worker(rule: ResumeRule, s: Ctl, pages: seq<string>, script: seq<Command>, passes: nat, log: seq<Event>): (r: Run)
    decreases passes
  {
    if s.shouldStop then Finish(s, log, script)
    else if passes == 0 then Run(s, log, script, OutOfPasses)
    else
      var p := Pages(rule, s, s.currentPage, pages, script, log);
      if p.outcome == Blocked then p
      else if !p.state.loopReading || p.state.shouldStop then Finish(p.state, p.log, p.rest)
      else Worker(rule, p.state.(currentPage := p.state.readFrom), pages, p.rest, passes - 1, p.log)
  }

  /** The outer loop read off the result of one pass. */
  lemma WorkerStep(s: Ctl, pages: seq<string>, script: seq<Command>, passes: nat, log: seq<Event>, p: Run)
    requires !s.shouldStop && passes > 0
    requires p == Pages(ContinueIterator, s, s.currentPage, pages, script, log)
    ensures Worker(ContinueIterator, s, pages, script, passes, log)
      == if p.outcome == Blocked then p
         else if !p.state.loopReading || p.state.shouldStop then Finish(p.state, p.log, p.rest)
         else Worker(ContinueIterator, p.state.(currentPage := p.state.readFrom), pages, p.rest, passes - 1, p.log)
  {
  }

  /** The worker as the source writes it. */
  function ReadDocumentSpec(s: Ctl, pages: seq<string>, script: seq<Command>, passes: nat): Run {
    Worker(ContinueIterator, s, pages, script, passes, [])
  }

  /** The events of an uninterrupted scan of pages `lo`..`hi`: progress for each, speech for each non-blank one. */
  function Expected(pages: seq<string>, lo: int, hi: int): seq<Event>
    decreases hi - lo
  {
    if lo > hi then []
    else [Progress(lo)] + (if IsBlank(PageText(pages, lo)) then [] else [Speak(lo)]) + Expected(pages, lo + 1, hi)
  }

  /** Every page of the range gets its progress event, and exactly the non-blank ones are spoken. */
  lemma {:induction false} ExpectedCoversRange(pages: seq<string>, lo: int, hi: int, p: int)
    ensures Progress(p) in Expected(pages, lo, hi) <==> lo <= p <= hi
    ensures Speak(p) in Expected(pages, lo, hi) <==> lo <= p <= hi && 0 <= p < |pages| && !IsBlank(pages[p])
    decreases hi - lo
  {
    if lo <= hi {
      var head := [Progress(lo)] + (if IsBlank(PageText(pages, lo)) then [] else [Speak(lo)]);
      assert Expected(pages, lo, hi) == head + Expected(pages, lo + 1, hi);
      ExpectedCoversRange(pages, lo + 1, hi, p);
      assert Progress(p) in head <==> p == lo;
      assert Speak(p) in head <==> p == lo && !IsBlank(PageText(pages, lo));
    }
  }

  /** `n` copies of `e`, one after another. */
  function Repeat(e: seq<Event>, n: nat): seq<Event> {
    if n == 0 then [] else e + Repeat(e, n - 1)
  }

  /**
   * Without user commands, the page loop emits exactly the events of an uninterrupted
   * scan from the iterator's value to the last page of the range, in ascending order,
   * and leaves the current page on the last page it visited.
   */
  lemma {:induction false} UninterruptedPass(rule: ResumeRule, s: Ctl, it: int, pages: seq<string>, log: seq<Event>)
    requires !s.shouldStop && !s.pauseEvent
    ensures Pages(rule, s, it, pages, [], log)
         == Run(if it <= s.readTo then s.(currentPage := s.readTo) else s, log + Expected(pages, it, s.readTo), [], Ended)
    decreases s.readTo + 1 - it
  {
    if it <= s.readTo {
      var s1 := s.(currentPage := it);
      var rest := Expected(pages, it + 1, s.readTo);
      var e := UninterruptedStep(rule, s, it, pages, log);
      calc {
        Pages(rule, s, it, pages, [], log);
        Pages(rule, s1, it + 1, pages, [], log + e);
        { UninterruptedPass(rule, s1, it + 1, pages, log + e); }
        Run(if it + 1 <= s.readTo then s1.(currentPage := s.readTo) else s1, log + e + rest, [], Ended);
        { assert Expected(pages, it, s.readTo) == e + rest;
          assert log + e + rest == log + (e + rest); }
        Run(s.(currentPage := s.readTo), log + Expected(pages, it, s.readTo), [], Ended);
      }
    } else {
      assert Expected(pages, it, s.readTo) == [];
      assert log + [] == log;
    }
  }

  /** One page of an uninterrupted pass. */
  lemma UninterruptedStep(rule: ResumeRule, s: Ctl, it: int, pages: seq<string>, log: seq<Event>) returns (e: seq<Event>)
    requires !s.shouldStop && !s.pauseEvent && it <= s.readTo
    ensures e == [Progress(it)] + (if IsBlank(PageText(pages, it)) then [] else [Speak(it)])
    ensures Pages(rule, s, it, pages, [], log) == Pages(rule, s.(currentPage := it), it + 1, pages, [], log + e)
  {
    e := [Progress(it)] + (if IsBlank(PageText(pages, it)) then [] else [Speak(it)]);
    var s1 := s.(currentPage := it);
    assert NextIt(rule, it, it) == it + 1;
    if !IsBlank(PageText(pages, it)) {
      assert e == [Progress(it), Speak(it)];
      assert Listen(s1, []) == (s1, []);
    } else {
      assert e == [Progress(it)];
    }
    assert PageTurn(rule, s, it, pages, []) == Turn(s1, it + 1, [], e, NextTurn);
    PagesTurn(rule, s, it, pages, [], log);
  }

  /**
   * A run nobody interrupts, outside loop mode, visits the pages from the current page
   * to the end of the range in ascending order, then emits `finished` and leaves the
   * controller neither running nor paused.
   */
  lemma UninterruptedRun(s: Ctl, pages: seq<string>, passes: nat)
    requires !s.shouldStop && !s.pauseEvent && !s.loopReading && passes >= 1
    ensures var r := ReadDocumentSpec(s, pages, [], passes);
      r.outcome == Ended && r.log == Expected(pages, s.currentPage, s.readTo) + [Finished]
      && !r.state.running && !r.state.paused
  {
    UninterruptedPass(ContinueIterator, s, s.currentPage, pages, []);
    assert [] + Expected(pages, s.currentPage, s.readTo) == Expected(pages, s.currentPage, s.readTo);
  }

  /** One uninterrupted looping pass, then the worker restarts at `readFrom`. */
  lemma LoopPassRestarts(s: Ctl, pages: seq<string>, passes: nat, log: seq<Event>)
    requires !s.shouldStop && !s.pauseEvent && s.loopReading && passes >= 1
    ensures Worker(ContinueIterator, s, pages, [], passes, log)
      == if passes == 1 then Run(s.(currentPage := s.readFrom), log + Expected(pages, s.currentPage, s.readTo), [], OutOfPasses)
         else Worker(ContinueIterator, s.(currentPage := s.readFrom), pages, [], passes - 1, log + Expected(pages, s.currentPage, s.readTo))
  {
    var after := if s.currentPage <= s.readTo then s.(currentPage := s.readTo) else s;
    var p := Run(after, log + Expected(pages, s.currentPage, s.readTo), [], Ended);
    assert p == Pages(ContinueIterator, s, s.currentPage, pages, [], log) by {
      UninterruptedPass(ContinueIterator, s, s.currentPage, pages, log);
    }
    WorkerStep(s, pages, [], passes, log, p);
  }

  /**
   * In loop mode, a run nobody interrupts reads from the current page to the end of the
   * range, then the whole range from `read_from_page` again on every later pass.
   */
  lemma {:induction false} LoopRestartsAtReadFrom(s: Ctl, pages: seq<string>, passes: nat, log: seq<Event>)
    requires !s.shouldStop && !s.pauseEvent && s.loopReading && passes >= 1
    ensures var r := Worker(ContinueIterator, s, pages, [], passes, log);
      r.outcome == OutOfPasses
      && r.log == log + Expected(pages, s.currentPage, s.readTo) + Repeat(Expected(pages, s.readFrom, s.readTo), passes - 1)
    decreases passes
  {
    var e := Expected(pages, s.currentPage, s.readTo);
    var again := Expected(pages, s.readFrom, s.readTo);
    var next := s.(currentPage := s.readFrom);
    var r := Worker(ContinueIterator, s, pages, [], passes, log);
    assert r == (if passes == 1 then Run(next, log + e, [], OutOfPasses)
                 else Worker(ContinueIterator, next, pages, [], passes - 1, log + e)) by {
      LoopPassRestarts(s, pages, passes, log);
    }
    if passes == 1 {
      assert Repeat(again, 0) == [];
      assert log + e + [] == log + e;
    } else {
      assert r.outcome == OutOfPasses && r.log == log + e + again + Repeat(again, passes - 2) by {
        LoopRestartsAtReadFrom(next, pages, passes - 1, log + e);
      }
      assert Repeat(again, passes - 1) == again + Repeat(again, passes - 2);
      assert log + e + again + Repeat(again, passes - 2) == log + e + Repeat(again, passes - 1);
    }
  }

  /**
   * Whenever the worker returns, it leaves the controller neither running nor paused,
   * and its last signal is `finished` exactly when no stop was requested; `finished`
   * is never emitted before the end.
   */
  lemma {:induction false} WorkerEndsIdle(rule: ResumeRule, s: Ctl, pages: seq<string>, script: seq<Command>, passes: nat, log: seq<Event>)
    requires Finished !in log
    ensures var r := Worker(rule, s, pages, script, passes, log);
      r.outcome == Ended ==>
        !r.state.running && !r.state.paused
        && (!r.state.shouldStop <==> |r.log| > 0 && r.log[|r.log| - 1] == Finished)
        && forall i | 0 <= i < |r.log| - 1 :: r.log[i] != Finished
    decreases passes
  {
    var r := Worker(rule, s, pages, script, passes, log);
    if !s.shouldStop && passes > 0 {
      var p := Pages(rule, s, s.currentPage, pages, script, log);
      assert Finished !in p.log by {
        forall i | 0 <= i < |p.log| ensures p.log[i] != Finished {
          if i < |log| {
            assert p.log[i] == log[i];
          }
        }
      }
      if p.outcome != Blocked && p.state.loopReading && !p.state.shouldStop {
        WorkerEndsIdle(rule, p.state.(currentPage := p.state.readFrom), pages, p.rest, passes - 1, p.log);
      }
    }
  }

  /** The controller right after `TTSController(3)` and `start_reading()`: pages 0..2, from page 0. */
  function StartedOnThreePages(): (s: Ctl)
    ensures FreshStart(s) && s.readTo == 2
  {
    StartSpec(Ctl(3, false, false, false, 0, 0, 2, None, false, false, false, false))
  }

  /** A controller `start_reading()` has just set off at page 0, outside loop mode, with no command given yet. */
  predicate FreshStart(s: Ctl) {
    s.running && !s.paused && !s.shouldStop && !s.loopReading && s.pausedAt.None?
    && !s.pauseEvent && !s.resumeEvent && s.currentPage == 0
  }

  /**
   * As written, a pause while page 0 is spoken, then a resume while the worker waits
   * before page 1, re-reads page 0 and then goes on with page 2: the `for` iterator has already moved past page 1, and the
   * run finishes normally without ever visiting it, whatever page 1 holds.
   */
  lemma SkipAfterResume(s0: Ctl, pages: seq<string>)
    requires FreshStart(s0) && s0.readTo == 2
    requires |pages| == 3 && !IsBlank(pages[0]) && !IsBlank(pages[2])
    ensures var r := ReadDocumentSpec(s0, pages, [Pause, Resume], 1);
      r.outcome == Ended && !r.state.shouldStop
      && r.log == [Progress(0), Speak(0), Progress(0), Speak(0), Progress(2), Speak(2), Finished]
      && Progress(1) !in r.log
  {
    var sA := PauseSpec(s0);
    var s2 := s0.(currentPage := 2);
    var l1 := [Progress(0), Speak(0)];
    var l2 := l1 + [Progress(0), Speak(0)];
    var l3 := l2 + [Progress(2), Speak(2)];
    assert l3 + [Finished] == [Progress(0), Speak(0), Progress(0), Speak(0), Progress(2), Speak(2), Finished];
    assert Progress(1) !in l3 + [Finished];
    SkipFirstPage(pages, s0, sA);
    assert [] + l1 == l1;
    assert Pages(ContinueIterator, s0, 0, pages, [Pause, Resume], []) == Pages(ContinueIterator, sA, 1, pages, [Resume], l1);
    SkipResumedPage(pages, s0, sA);
    assert Pages(ContinueIterator, sA, 1, pages, [Resume], l1) == Pages(ContinueIterator, s0, 2, pages, [], l2);
    LastPageTurn(pages, s0);
    assert Pages(ContinueIterator, s0, 2, pages, [], l2) == Pages(ContinueIterator, s2, 3, pages, [], l3);
    assert Pages(ContinueIterator, s2, 3, pages, [], l3) == Run(s2, l3, [], Ended);
    assert ReadDocumentSpec(s0, pages, [Pause, Resume], 1) == Finish(s2, l3, []);
  }

  /** Page 0 is spoken, and the pause arrives meanwhile. */
  lemma SkipFirstPage(pages: seq<string>, s0: Ctl, sA: Ctl)
    requires FreshStart(s0) && s0.readTo == 2 && sA == PauseSpec(s0) && |pages| == 3 && !IsBlank(pages[0])
    ensures PageTurn(ContinueIterator, s0, 0, pages, [Pause, Resume]) == Turn(sA, 1, [Resume], [Progress(0), Speak(0)], NextTurn)
  {
    assert s0.(currentPage := 0) == s0;
    assert [Pause, Resume][1..] == [Resume];
    assert Listen(s0, [Pause, Resume]) == (sA, [Resume]);
  }

  /** At iterator value 1 the worker waits, the resume releases it, and page 0 is spoken again. */
  lemma SkipResumedPage(pages: seq<string>, s0: Ctl, sA: Ctl)
    requires FreshStart(s0) && s0.readTo == 2 && sA == PauseSpec(s0) && |pages| == 3 && !IsBlank(pages[0])
    ensures PageTurn(ContinueIterator, sA, 1, pages, [Resume]) == Turn(s0, 2, [], [Progress(0), Speak(0)], NextTurn)
  {
    ResumeReleases(s0, sA);
    assert s0.(currentPage := s0.currentPage) == s0;
    assert Listen(s0, []) == (s0, []);
  }

  /** The resume releases the paused worker and puts the controller back as it was started. */
  lemma ResumeReleases(s0: Ctl, sA: Ctl)
    requires FreshStart(s0) && sA == PauseSpec(s0)
    ensures AwaitResume(sA, [Resume]) == (s0, [], true)
  {
    AwaitOneCommand(sA, [Resume]);
    assert [Resume][1..] == [];
    var sR := ResumeSpec(sA);
    assert Apply(sA, Resume) == sR && sR.resumeEvent;
    assert sR.(resumeEvent := false) == s0;
  }

  /** At iterator value 2, with no command left, page 2 is spoken. */
  lemma LastPageTurn(pages: seq<string>, s0: Ctl)
    requires FreshStart(s0) && s0.readTo == 2 && |pages| == 3 && !IsBlank(pages[2])
    ensures PageTurn(ContinueIterator, s0, 2, pages, []) == Turn(s0.(currentPage := 2), 3, [], [Progress(2), Speak(2)], NextTurn)
  {
    assert Listen(s0.(currentPage := 2), []) == (s0.(currentPage := 2), []);
  }

  /** A wait that is not yet released takes the next command. */
  lemma AwaitOneCommand(s: Ctl, script: seq<Command>)
    requires !s.resumeEvent && script != []
    ensures AwaitResume(s, script) == AwaitResume(Apply(s, script[0]), script[1..])
  {
  }

  /** A wait whose event is already set, or with no command left, ends at once. */
  lemma AwaitEnds(s: Ctl, script: seq<Command>)
    requires s.resumeEvent || script == []
    ensures AwaitResume(s, script) == if s.resumeEvent then (s.(resumeEvent := false), script, true) else (s, script, false)
  {
  }

  /** Page bounds the scan keeps when it follows the current page: start <= paused-at page <= current page <= iterator. */
  predicate ScanBounds(s: Ctl, start: int, it: int) {
    Consistent(s) && start <= s.currentPage <= it
    && (s.paused ==> s.pausedAt.Some? && start <= s.pausedAt.value <= s.currentPage)
  }

  lemma ApplyKeepsScanBounds(s: Ctl, c: Command, start: int, it: int)
    requires ScanBounds(s, start, it)
    ensures ScanBounds(Apply(s, c), start, it)
  {
  }

  lemma {:induction false} AwaitKeepsScanBounds(s: Ctl, script: seq<Command>, start: int, it: int)
    requires ScanBounds(s, start, it)
    ensures ScanBounds(AwaitResume(s, script).0, start, it)
    decreases |script|
  {
    if !s.resumeEvent && script != [] {
      ApplyKeepsScanBounds(s, script[0], start, it);
      AwaitKeepsScanBounds(Apply(s, script[0]), script[1..], start, it);
    }
  }

  /**
   * One turn of a scan that follows the current page keeps the page bounds, and the
   * page it reports is at most the iterator: no page is passed over.
   */
  lemma FollowingTurn(s: Ctl, start: int, it: int, pages: seq<string>, script: seq<Command>)
    requires ScanBounds(s, start, it) && it <= s.readTo && !s.shouldStop
    ensures var t := PageTurn(FollowCurrentPage, s, it, pages, script);
      t.step == NextTurn ==> ScanBounds(t.state, start, t.next) && start <= t.next - 1 <= it && Progress(t.next - 1) in t.said
  {
    var w := if s.pauseEvent then AwaitResume(s, script) else (s, script, true);
    if s.pauseEvent {
      AwaitKeepsScanBounds(s, script, start, it);
    }
    if w.2 && !(s.pauseEvent && w.0.shouldStop) {
      var page := if s.pauseEvent then w.0.currentPage else it;
      var s1 := w.0.(currentPage := page);
      assert ScanBounds(s1, start, page + 1);
      if w.1 != [] {
        ApplyKeepsScanBounds(s1, w.1[0], start, page + 1);
      }
    }
  }

  /**
   * When the scan goes on from the page actually re-read, every page from the start
   * page to the iterator has had its progress event, and a scan that ends without a
   * stop has visited every page up to the end of the range.
   */
  lemma {:induction false} FollowingScanCoversRange(s: Ctl, start: int, it: int, pages: seq<string>, script: seq<Command>, log: seq<Event>)
    requires ScanBounds(s, start, it)
    requires forall p | start <= p < it :: Progress(p) in log
    ensures var r := Pages(FollowCurrentPage, s, it, pages, script, log);
      r.outcome == Ended && !r.state.shouldStop ==> forall p | start <= p <= s.readTo :: Progress(p) in r.log
    decreases |script|, if s.resumeEvent then 1 else 0, s.readTo + 1 - it
  {
    if it <= s.readTo && !s.shouldStop {
      var t := PageTurn(FollowCurrentPage, s, it, pages, script);
      FollowingTurn(s, start, it, pages, script);
      if t.step == NextTurn {
        var log1 := log + t.said;
        forall p | start <= p < t.next
          ensures Progress(p) in log1
        {
          if p < t.next - 1 {
            assert Progress(p) in log;
          }
        }
        FollowingScanCoversRange(t.state, start, t.next, pages, t.rest, log1);
      }
    }
  }

  /**
   * With the scan going on from the page re-read after a resume, a run outside loop
   * mode that ends without a stop has visited every page from its start page to the
   * end of the range, whatever pauses and resumes came in between.
   */
  lemma CorrectedReadsEveryPage(s: Ctl, pages: seq<string>, script: seq<Command>, passes: nat)
    requires Consistent(s) && !s.paused && !s.shouldStop && !s.loopReading
    ensures var r := Worker(FollowCurrentPage, s, pages, script, passes, []);
      r.outcome == Ended && !r.state.shouldStop ==> forall p | s.currentPage <= p <= s.readTo :: Progress(p) in r.log
  {
    if passes > 0 {
      FollowingScanCoversRange(s, s.currentPage, s.currentPage, pages, script, []);
      var p := Pages(FollowCurrentPage, s, s.currentPage, pages, script, []);
      var r := Worker(FollowCurrentPage, s, pages, script, passes, []);
      if p.outcome != Blocked {
        assert p.log <= r.log;
      }
    }
  }

  class TTSController {
    var totalPages: int
    var running: bool
    var paused: bool
    var shouldStop: bool
    var currentPage: int
    var readFrom: int
    var readTo: int
    var pausedAt: Option<int>
    var loopReading: bool
    var pauseEvent: bool
    var resumeEvent: bool
    var stopEvent: bool

    function State(): Ctl
      reads this
    {
      Ctl(totalPages, running, paused, shouldStop, currentPage, readFrom, readTo,
          pausedAt, loopReading, pauseEvent, resumeEvent, stopEvent)
    }

    /** A new controller reads the whole document, is idle, and is not looping. */
    constructor(totalPages: int)
      ensures State() == Ctl(totalPages, false, false, false, 0, 0, totalPages - 1, None, false, false, false, false)
    {
      this.totalPages := totalPages;
      running, paused, shouldStop := false, false, false;
      currentPage, readFrom, readTo := 0, 0, totalPages - 1;
      pausedAt := None;
      loopReading := false;
      pauseEvent, resumeEvent, stopEvent := false, false, false;
    }

    method SetReadRange(fromPage: int, toPage: Option<int>)
      modifies this
      ensures State() == old(State()).(readFrom := ReadRange(totalPages, fromPage, toPage).0,
                                       readTo := ReadRange(totalPages, fromPage, toPage).1)
    {
      readFrom := Max(0, Min(fromPage, totalPages - 1));
      if toPage.None? {
        readTo := totalPages - 1;
      } else {
        readTo := Max(readFrom, Min(toPage.value, totalPages - 1));
      }
    }

    method SetLoopReading(loop: bool)
      modifies this
      ensures State() == old(State()).(loopReading := loop)
    {
      loopReading := loop;
    }

    /** start_reading; the worker it launches is `ReadDocument`. */
    method StartReading()
      modifies this
      ensures State() == StartSpec(old(State()))
    {
      if running {
        return;
      }
      running := true;
      paused := false;
      shouldStop := false;
      currentPage := readFrom;
      pauseEvent := false;
      resumeEvent := false;
      stopEvent := false;
    }

    method PauseReading()
      modifies this
      ensures State() == PauseSpec(old(State()))
    {
      if running && !paused {
        paused := true;
        pausedAt := Some(currentPage);
        pauseEvent := true;
      }
    }

    method ResumeReading()
      modifies this
      ensures State() == ResumeSpec(old(State()))
    {
      if running && paused {
        paused := false;
        if pausedAt.Some? {
          currentPage := pausedAt.value;
          pausedAt := None;
        }
        pauseEvent := false;
        resumeEvent := true;
      }
    }

    method StopReading()
      modifies this
      ensures State() == StopSpec(old(State()))
    {
      if running {
        shouldStop := true;
        running := false;
        paused := false;
        stopEvent := true;
        pauseEvent := true;
        resumeEvent := true;
      }
    }

    /** A command arriving from the player's buttons. */
    method Deliver(c: Command)
      modifies this
      ensures State() == Apply(old(State()), c)
    {
      match c {
        case Idle =>
        case Pause => PauseReading();
        case Resume => ResumeReading();
        case Stop => StopReading();
      }
    }

    /** `resume_event.wait()` then `resume_event.clear()`: commands arrive until one sets the event. */
    method WaitForResume(script: seq<Command>, k: nat) returns (k2: nat, released: bool)
      requires k <= |script|
      modifies this
      ensures k <= k2 <= |script|
      ensures (State(), script[k2..], released) == AwaitResume(old(State()), script[k..])
    {
      k2 := k;
      while !resumeEvent && k2 < |script|
        invariant k <= k2 <= |script|
        invariant AwaitResume(State(), script[k2..]) == AwaitResume(old(State()), script[k..])
        decreases |script| - k2
      {
        assert script[k2..][1..] == script[k2 + 1..];
        AwaitOneCommand(State(), script[k2..]);
        Deliver(script[k2]);
        k2 := k2 + 1;
      }
      AwaitEnds(State(), script[k2..]);
      released := resumeEvent;
      if released {
        resumeEvent := false;
      }
    }

    /** The command, if any is left, that the user gives while a page is spoken. */
    method ListenWhileSpeaking(script: seq<Command>, k: nat) returns (k2: nat)
      requires k <= |script|
      modifies this
      ensures k <= k2 <= |script|
      ensures (State(), script[k2..]) == Listen(old(State()), script[k..])
    {
      k2 := k;
      if k < |script| {
        assert script[k..][1..] == script[k + 1..];
        Deliver(script[k]);
        k2 := k + 1;
      }
    }

    /** One turn of the `for` loop at iterator value `it`, after the stop check: pause wait, progress, speaking. */
    method ReadPage(pages: seq<string>, script: seq<Command>, k: nat, log: seq<Event>, it: int)
      returns (k2: nat, log2: seq<Event>, step: Step)
      requires k <= |script| && it <= readTo && !shouldStop
      modifies this
      ensures k <= k2 <= |script|
      ensures var t := PageTurn(ContinueIterator, old(State()), it, pages, script[k..]);
        State() == t.state && script[k2..] == t.rest && log2 == log + t.said && step == t.step
      ensures step == NextTurn ==> PageTurn(ContinueIterator, old(State()), it, pages, script[k..]).next == it + 1
    {
      ghost var s0 := State();
      k2, log2 := k, log;
      var page := it;
      if pauseEvent {
        var released;
        k2, released := WaitForResume(script, k);
        if !released {
          return k2, log2, Hang;
        }
        if shouldStop {
          assert log2 == log + [];
          return k2, log2, LeaveLoop;
        }
        page := currentPage;
      }
      ghost var w := if s0.pauseEvent then AwaitResume(s0, script[k..]) else (s0, script[k..], true);
      currentPage := page;
      assert State() == w.0.(currentPage := page) && script[k2..] == w.1;
      ghost var s1, k1 := State(), k2;
      log2 := log2 + [Progress(page)];
      assert log2 == log + [Progress(page)];
      if !IsBlank(PageText(pages, page)) {
        log2 := log2 + [Speak(page)];
        k2 := ListenWhileSpeaking(script, k2);
        assert (State(), script[k2..]) == Listen(s1, script[k1..]);
        assert log2 == log + [Progress(page), Speak(page)];
      }
      step := NextTurn;
    }

    /** One turn of the page loop, read as one step of the loop's specification. */
    method PassTurn(pages: seq<string>, script: seq<Command>, k: nat, log: seq<Event>, it: int)
      returns (k2: nat, log2: seq<Event>, step: Step)
      requires k <= |script| && it <= readTo && !shouldStop
      modifies this
      ensures k <= k2 <= |script| && readTo == old(readTo)
      ensures step == NextTurn ==>
        (k < k2 || (old(resumeEvent) && !resumeEvent) || resumeEvent == old(resumeEvent))
        && Pages(ContinueIterator, old(State()), it, pages, script[k..], log) == Pages(ContinueIterator, State(), it + 1, pages, script[k2..], log2)
      ensures step != NextTurn ==>
        Pages(ContinueIterator, old(State()), it, pages, script[k..], log) == Run(State(), log2, script[k2..], if step == Hang then Blocked else Ended)
    {
      ghost var s0 := State();
      k2, log2, step := ReadPage(pages, script, k, log, it);
      ContinueTurn(s0, it, pages, script[k..], log, State(), script[k2..], log2, step);
    }

    /** One run of the `for` loop over the pages from `current_page` to `read_to_page`. */
    method ReadPass(pages: seq<string>, script: seq<Command>, k: nat, log: seq<Event>)
      returns (k2: nat, log2: seq<Event>, blocked: bool)
      requires k <= |script|
      modifies this
      ensures k <= k2 <= |script|
      ensures Run(State(), log2, script[k2..], if blocked then Blocked else Ended)
           == Pages(ContinueIterator, old(State()), old(currentPage), pages, script[k..], log)
    {
      ghost var goal := Pages(ContinueIterator, State(), currentPage, pages, script[k..], log);
      k2, log2, blocked := k, log, false;
      var it := currentPage;
      while it <= readTo
        invariant k <= k2 <= |script|
        invariant Pages(ContinueIterator, State(), it, pages, script[k2..], log2) == goal
        decreases |script| - k2, if resumeEvent then 1 else 0, readTo + 1 - it
      {
        if shouldStop {
          break;
        }
        var step;
        k2, log2, step := PassTurn(pages, script, k2, log2, it);
        if step != NextTurn {
          blocked := step == Hang;
          return;
        }
        it := it + 1;
      }
      PagesEnded(ContinueIterator, State(), it, pages, script[k2..], log2);
    }

    /** `_read_document`, the worker thread's body. */
    method ReadDocument(pages: seq<string>, script: seq<Command>, passes: nat) returns (log: seq<Event>, outcome: Outcome)
      modifies this
      ensures var r := ReadDocumentSpec(old(State()), pages, script, passes);
        State() == r.state && log == r.log && outcome == r.outcome
    {
      ghost var goal := ReadDocumentSpec(State(), pages, script, passes);
      var k := 0;
      var left := passes;
      log := [];
      while !shouldStop
        invariant 0 <= k <= |script|
        invariant Worker(ContinueIterator, State(), pages, script[k..], left, log) == goal
        decreases left
      {
        if left == 0 {
          outcome := OutOfPasses;
          return;
        }
        var blocked;
        ghost var sb, kb, lb := State(), k, log;
        k, log, blocked := ReadPass(pages, script, k, log);
        WorkerStep(sb, pages, script[kb..], left, lb, Run(State(), log, script[k..], if blocked then Blocked else Ended));
        if blocked {
          outcome := Blocked;
          return;
        }
        if !loopReading || shouldStop {
          break;
        }
        currentPage := readFrom;
        left := left - 1;
      }
      if !shouldStop {
        log := log + [Finished];
      }
      running := false;
      paused := false;
      outcome := Ended;
    }
  }

  // ---------------------------------------------------------------- the player widget

  /**
   * A button is enabled exactly when pressing it changes the controller: each button's
   * state is its command's guard; the settings button is enabled with the start button.
   */
  lemma ButtonsMatchGuards(s: Ctl)
    ensures EnabledButtons(s.running, s.paused).start <==> StartSpec(s) != s
    ensures EnabledButtons(s.running, s.paused).pause <==> PauseSpec(s) != s
    ensures EnabledButtons(s.running, s.paused).resume <==> ResumeSpec(s) != s
    ensures EnabledButtons(s.running, s.paused).stop <==> StopSpec(s) != s
    ensures EnabledButtons(s.running, s.paused).settings <==> EnabledButtons(s.running, s.paused).start
  {
    CommandGuards(s);
  }

  /**
   * The player widget: the document's size, the page shown in the main window, the
   * reading mode and range, loop mode, and the controller it drives.
   */
  class TTSPlayerWidget {
    const controller: TTSController
    var totalPages: int
    var currentPage: int
    var readMode: ReadMode
    var readFromPage: int
    var readToPage: int
    var loopReading: bool

    predicate Valid()
      reads this
    {
      0 <= currentPage < totalPages && RangeInDocument((readFromPage, readToPage), totalPages)
    }

    /** A new player reads from the main window's page to the end, without looping. */
    constructor(totalPages: int, currentPage: int)
      requires 0 <= currentPage < totalPages
      ensures Valid() && fresh(controller)
      ensures this.totalPages == totalPages && this.currentPage == currentPage && readMode == Current
      ensures readFromPage == currentPage && readToPage == totalPages - 1 && !loopReading
      ensures controller.State() == Ctl(totalPages, false, false, false, 0, 0, totalPages - 1, None, false, false, false, false)
    {
      this.totalPages := totalPages;
      this.currentPage := currentPage;
      readMode := Current;
      readFromPage := currentPage;
      readToPage := totalPages - 1;
      loopReading := false;
      controller := new TTSController(totalPages);
    }

    /** on_main_page_changed: follow the page shown in the main window. */
    method FollowMainPage(page: int)
      requires Valid() && 0 <= page < totalPages
      modifies this
      ensures Valid() && currentPage == page
      ensures readMode == old(readMode) && readFromPage == old(readFromPage) && readToPage == old(readToPage)
      ensures totalPages == old(totalPages) && loopReading == old(loopReading)
    {
      currentPage := page;
    }

    method SetReadMode(mode: ReadMode, fromPage: Option<int>, toPage: Option<int>)
      requires Valid()
      modifies this
      ensures Valid()
      ensures readMode == mode
      ensures (readFromPage, readToPage) == ModeRange(mode, old(currentPage), totalPages, old(readFromPage), fromPage, toPage)
      ensures totalPages == old(totalPages) && currentPage == old(currentPage) && loopReading == old(loopReading)
    {
      ModeRangeMeaning(mode, currentPage, totalPages, readFromPage, fromPage, toPage);
      readMode := mode;
      match mode {
        case All =>
          readFromPage := 0;
          readToPage := totalPages - 1;
        case OnlyCurrent =>
          readFromPage := currentPage;
          readToPage := currentPage;
        case Range =>
          if fromPage.Some? {
            readFromPage := Max(0, Min(fromPage.value, totalPages - 1));
          }
          if toPage.Some? {
            readToPage := Max(readFromPage, Min(toPage.value, totalPages - 1));
          } else {
            readToPage := totalPages - 1;
          }
        case Current =>
          readFromPage := currentPage;
          readToPage := totalPages - 1;
      }
    }

    method SetLoopReading(loop: bool)
      modifies this, controller
      ensures loopReading == loop && controller.State() == old(controller.State()).(loopReading := loop)
      ensures totalPages == old(totalPages) && currentPage == old(currentPage) && readMode == old(readMode)
      ensures readFromPage == old(readFromPage) && readToPage == old(readToPage)
    {
      loopReading := loop;
      controller.SetLoopReading(loop);
    }

    /** update_buttons, from the controller's flags. */
    method UpdateButtons() returns (b: Buttons)
      ensures b == EnabledButtons(controller.running, controller.paused)
    {
      var running, paused := controller.running, controller.paused;
      b := Buttons(!running, running && !paused, running && paused, running, !running);
    }

    /**
     * start_reading: hand the range and loop mode to the controller and start it. A
     * controller of this document then reads exactly the widget's range, from its first page.
     */
    method StartReading()
      requires Valid() && controller.totalPages == totalPages
      modifies controller
      ensures controller.State() == StartSpec(old(controller.State()).(readFrom := readFromPage, readTo := readToPage, loopReading := loopReading))
      ensures !old(controller.running) ==> controller.running && controller.currentPage == readFromPage
    {
      ReadRangeKeepsValidRange(totalPages, (readFromPage, readToPage));
      controller.SetReadRange(readFromPage, Some(readToPage));
      controller.SetLoopReading(loopReading);
      controller.StartReading();
    }
  }
}
