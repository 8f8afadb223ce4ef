/**
 * The narration widget of app_main_v2.py (`TTSPlayerWidget`) and its settings dialog
 * (`TTSConfigDialog.apply_settings`), over the player model shared with app_main.py.
 */
module AppMainV2 {
  import opened Text
  import Voices
  import ReadingRange
  import opened LoopPlayer

  /** The reading-range radio buttons of the settings dialog. */
  datatype Choice = ChooseCurrent | ChooseStart | ChooseSpecific

  /**
   * apply_settings' effect on the read mode: 'start' and 'current' reset the specific
   * page to 0; 'specific' takes the typed number minus one, without a range check, and
   * an entry that is not an integer keeps the mode and page and shows a warning.
   */
  function ApplyReadMode(choice: Choice, entry: string, mode: Mode, specificPage: int): (r: (Mode, int, bool))
    ensures r.2 <==> choice == ChooseSpecific && ParseInt(entry).None?
    ensures r.2 ==> r.0 == mode && r.1 == specificPage
    ensures choice == ChooseSpecific && ParseInt(entry).Some? ==> r == (Specific, ParseInt(entry).value - 1, false)
    ensures choice == ChooseStart ==> r == (Start, 0, false)
    ensures choice == ChooseCurrent ==> r == (Current, 0, false)
  {
    var parsed := ParseInt(entry);
    match choice
    case ChooseStart => (Start, 0, false)
    case ChooseCurrent => (Current, 0, false)
    case ChooseSpecific =>
      if parsed.None? then (mode, specificPage, true) else (Specific, parsed.value - 1, false)
  }

  /**
   * Any integer typed is taken, whatever the page count: "0" sets page -1, and a number
   * past the last page sets a page outside the document.
   */
  lemma EntryIsNotRangeChecked(n: int, mode: Mode, specificPage: int)
    ensures ApplyReadMode(ChooseSpecific, IntToString(n), mode, specificPage) == (Specific, n - 1, false)
  {
    IntToStringRoundTrip(n);
  }

  /** The widget with its settings store; `storedMale`/`storedFemale` are None until first written. */
  class TTSPlayerWidget {
    var totalPages: int
    var currentReadPage: int
    var isPlaying: bool
    var isPaused: bool
    var readMode: Mode
    var specificPage: int
    var storedMale: Option<bool>
    var storedFemale: Option<bool>
    var engineVoice: Option<string>

    function State(): Player
      reads this
    {
      Player(totalPages, currentReadPage, isPlaying, isPaused, Setup(readMode, specificPage, ""), Buttons(true, true, true))
    }

    /** The settings' male choice, true when never written. */
    function UseMale(): bool
      reads this
    {
      if storedMale.Some? then storedMale.value else true
    }

    /** The settings' female choice, false when never written. */
    function UseFemale(): bool
      reads this
    {
      if storedFemale.Some? then storedFemale.value else false
    }

    constructor(totalPages: int, currentPage: int, storedMale: Option<bool>, storedFemale: Option<bool>)
      ensures State() == Player(totalPages, currentPage, false, false, Setup(Current, 0, ""), Buttons(true, true, true))
      ensures this.storedMale == storedMale && this.storedFemale == storedFemale && engineVoice == None
    {
      this.totalPages, currentReadPage := totalPages, currentPage;
      isPlaying, isPaused := false, false;
      readMode, specificPage := Current, 0;
      this.storedMale, this.storedFemale := storedMale, storedFemale;
      engineVoice := None;
    }

    /** get_voice_id. */
    method GetVoiceId(voices: seq<Voices.Voice>) returns (id: Option<string>)
      ensures id == Voices.Choose(voices, GenderKeywords(UseMale(), UseFemale()))
    {
      id := Voices.ScanVoices(voices, GenderKeywords(UseMale(), UseFemale()));
    }

    method SetReadMode(mode: Mode, page: int)
      modifies this
      ensures readMode == mode && specificPage == page
      ensures totalPages == old(totalPages) && currentReadPage == old(currentReadPage)
      ensures isPlaying == old(isPlaying) && isPaused == old(isPaused)
      ensures storedMale == old(storedMale) && storedFemale == old(storedFemale) && engineVoice == old(engineVoice)
    {
      readMode, specificPage := mode, page;
    }

    /** TTSConfigDialog.apply_settings: store the voice choices, then set the read mode; returns whether it warned. */
    method ApplySettings(maleChecked: bool, femaleChecked: bool, choice: Choice, entry: string) returns (warned: bool)
      modifies this
      ensures storedMale == Some(maleChecked) && storedFemale == Some(femaleChecked)
      ensures (readMode, specificPage, warned) == ApplyReadMode(choice, entry, old(readMode), old(specificPage))
      ensures totalPages == old(totalPages) && currentReadPage == old(currentReadPage)
      ensures isPlaying == old(isPlaying) && isPaused == old(isPaused) && engineVoice == old(engineVoice)
    {
      storedMale, storedFemale := Some(maleChecked), Some(femaleChecked);
      warned := false;
      if choice == ChooseStart {
        SetReadMode(Start, 0);
      } else if choice == ChooseSpecific {
        var n := ParseInt(entry);
        if n.Some? {
          SetReadMode(Specific, n.value - 1);
        } else {
          warned := true;
        }
      } else {
        SetReadMode(Current, 0);
      }
    }

    method NavigatePage(delta: int, absolute: bool)
      modifies this
      ensures State() == GotoSpec(Widget, old(State()), NavigateTarget(old(currentReadPage), delta, absolute))
      ensures storedMale == old(storedMale) && storedFemale == old(storedFemale) && engineVoice == old(engineVoice)
    {
      var newPage := if absolute then delta else currentReadPage + delta;
      if 0 <= newPage < totalPages {
        currentReadPage := newPage;
      }
    }

    /** The play button's label shows "pause". */
    method UpdatePlayerButtons() returns (showsPause: bool)
      ensures showsPause == ShowsPause(State())
    {
      showsPause := isPlaying && !isPaused;
    }

    /** play_pause_resume: choose the engine's voice, then start, resume or pause. */
    method PlayPauseResume(voices: seq<Voices.Voice>)
      modifies this
      ensures State() == PlayPauseSpec(Widget, old(State()))
      ensures var v := Voices.Choose(voices, GenderKeywords(old(UseMale()), old(UseFemale())));
        engineVoice == if v.Some? && v.value != "" then v else old(engineVoice)
      ensures storedMale == old(storedMale) && storedFemale == old(storedFemale)
    {
      var voiceId := GetVoiceId(voices);
      if voiceId.Some? && voiceId.value != "" {
        engineVoice := voiceId;
      }
      if !isPlaying || isPaused {
        if !isPlaying {
          if readMode == Start {
            currentReadPage := 0;
          } else if readMode == Specific {
            currentReadPage := specificPage;
          }
          isPlaying := true;
        } else if isPaused {
          isPaused := false;
        }
      } else {
        isPaused := true;
      }
    }

    method StopSpeech()
      modifies this
      ensures State() == StopSpec(Widget, old(State()))
      ensures storedMale == old(storedMale) && storedFemale == old(storedFemale) && engineVoice == old(engineVoice)
    {
      if isPlaying {
        isPlaying, isPaused := false, false;
      }
    }

    /** A press while a page is spoken; the widget's pause_speech does nothing. */
    method Press(c: Command, voices: seq<Voices.Voice>)
      modifies this
      ensures State() == Apply(Widget, old(State()), c)
      ensures storedMale == old(storedMale) && storedFemale == old(storedFemale)
    {
      match c {
        case Idle =>
        case PlayPause => PlayPauseResume(voices);
        case Pause =>
        case Stop => StopSpeech();
        case Goto(p) => NavigatePage(p, true);
      }
    }

    /** _run_tts_loop: the worker thread's body. */
    method RunTtsLoop(texts: seq<string>, script: seq<Command>, voices: seq<Voices.Voice>) returns (log: seq<Event>)
      modifies this
      ensures var r := WorkerSpec(Widget, old(State()), texts, script);
        State() == r.state && log == r.log
    {
      var i, k := currentReadPage, 0;
      log := [];
      ghost var goal := Loop(Widget, State(), i, texts, script, []);
      while i < totalPages
        invariant 0 <= k <= |script|
        invariant Loop(Widget, State(), i, texts, script[k..], log) == goal
        decreases totalPages - i
      {
        if !isPlaying {
          break;
        }
        var text := ReadingRange.RawPageText(texts, i);
        if text != "" {
          log := log + [Speak(i)];
          if k < |script| {
            assert script[k..][1..] == script[k + 1..];
            Press(script[k], voices);
            k := k + 1;
          }
          currentReadPage := i + 1;
        }
        i := i + 1;
      }
      StopSpeech();
    }
  }
}
