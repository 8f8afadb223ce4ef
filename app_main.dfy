/**
 * The narration dialog of app_main.py (`TTSPlayerDialog`), over the player model shared
 * with app_main_v2.py: its start/continue, pause and stop buttons, its page buttons,
 * and the reading-range and voice radio buttons it reads when a reading starts.
 */
module AppMain {
  import opened Text
  import Voices
  import ReadingRange
  import opened LoopPlayer

  /** The voice button load_settings checks. */
  datatype VoiceButton = MaleButton | FemaleButton | NoButton

  /** Index of the first voice whose id is the stored one. */
  function StoredVoiceIndex(voices: seq<Voices.Voice>, storedId: Option<string>): (r: Option<nat>)
    ensures r.Some? ==> r.value < |voices| && Some(voices[r.value].id) == storedId
    ensures r.Some? ==> forall j | 0 <= j < r.value :: Some(voices[j].id) != storedId
    ensures r.None? ==> forall j | 0 <= j < |voices| :: Some(voices[j].id) != storedId
  {
    if voices == [] then None
    else if Some(voices[0].id) == storedId then Some(0)
    else match StoredVoiceIndex(voices[1..], storedId)
      case None => None
      case Some(i) => Some(i + 1)
  }

  /**
   * The button load_settings checks: the male one for a stored voice whose name contains
   * 'male' and for an id no voice has, the female one for a name with 'female', none
   * for a name with neither. A name with 'female' contains 'male', so the female button
   * is never the one checked.
   */
  function LoadedButton(storedId: Option<string>, voices: seq<Voices.Voice>): (b: VoiceButton)
    ensures b != FemaleButton
    ensures b == NoButton <==>
      exists i | 0 <= i < |voices| ::
        && Some(voices[i].id) == storedId && !Contains(Lower(voices[i].name), "male")
        && forall j | 0 <= j < i :: Some(voices[j].id) != storedId
  {
    match StoredVoiceIndex(voices, storedId)
    case None => MaleButton
    case Some(i) =>
      var name := Lower(voices[i].name);
      if Contains(name, "male") then MaleButton
      else if Contains(name, "female") then
        Voices.FemaleContainsMale(name);
        assert false; FemaleButton
      else NoButton
  }

  /** The id save_settings applies: the first voice fitting a checked button, with no fall-back. */
  function SavedVoice(voices: seq<Voices.Voice>, male: bool, female: bool): (r: Option<string>)
    ensures r.Some? <==> exists i | 0 <= i < |voices| :: Voices.Matches(voices[i], GenderKeywords(male, female))
    ensures r.Some? ==> Voices.Choose(voices, GenderKeywords(male, female)) == r
  {
    match Voices.FirstMatch(voices, GenderKeywords(male, female))
    case Some(i) => Some(voices[i].id)
    case None => None
  }

  class TTSPlayerDialog {
    var totalPages: int
    var currentReadPage: int
    var isPlaying: bool
    var isPaused: bool
    /** The checked reading-range radio button and the page field's text. */
    var readMode: Mode
    var pageEntry: string
    var btnStart: bool
    var btnPause: bool
    var btnStop: bool
    var maleChecked: bool
    var femaleChecked: bool
    /** The engine's voice (None: its default) and the voice id kept in the settings. */
    var engineVoice: Option<string>
    var savedVoiceId: Option<string>

    function State(): Player
      reads this
    {
      Player(totalPages, currentReadPage, isPlaying, isPaused, Setup(readMode, 0, pageEntry), Buttons(btnStart, btnPause, btnStop))
    }

    /**
     * A new dialog: reading from the current page, whose 1-based number fills the page
     * field; every button enabled; both voice buttons unchecked until load_settings
     * checks one, whose `toggled` signal runs save_settings.
     */
    constructor(totalPages: int, currentPage: int, storedId: Option<string>, voices: seq<Voices.Voice>)
      ensures State() == Player(totalPages, currentPage, false, false, Setup(Current, 0, IntToString(currentPage + 1)), Buttons(true, true, true))
      ensures maleChecked == (LoadedButton(storedId, voices) == MaleButton) && !femaleChecked
      ensures var v := SavedVoice(voices, true, false);
        engineVoice == (if maleChecked then v else None) &&
        savedVoiceId == (if maleChecked && v.Some? then v else storedId)
    {
      this.totalPages, currentReadPage := totalPages, currentPage;
      isPlaying, isPaused := false, false;
      readMode, pageEntry := Current, IntToString(currentPage + 1);
      btnStart, btnPause, btnStop := true, true, true;
      maleChecked, femaleChecked := false, false;
      engineVoice, savedVoiceId := None, storedId;
      new;
      LoadSettings(storedId, voices);
    }

    /**
     * load_settings: look up the stored voice id among the engine's voices and check the
     * voice button its name calls for, the male one when the id is not found; a button
     * that changes state runs save_settings.
     */
    method LoadSettings(storedId: Option<string>, voices: seq<Voices.Voice>)
      modifies this
      ensures var b := LoadedButton(storedId, voices);
        if b == NoButton then maleChecked == old(maleChecked) && femaleChecked == old(femaleChecked)
        else maleChecked == (b == MaleButton) && femaleChecked == (b == FemaleButton)
      ensures VoiceSaved(old(maleChecked), old(femaleChecked), old(engineVoice), old(savedVoiceId), voices)
      ensures State() == old(State())
    {
      var i := 0;
      while i < |voices|
        invariant 0 <= i <= |voices|
        invariant forall j | 0 <= j < i :: Some(voices[j].id) != storedId
        invariant unchanged(this)
      {
        if Some(voices[i].id) == storedId {
          var name := Lower(voices[i].name);
          if Contains(name, "male") {
            CheckVoiceButton(true, voices);
          } else if Contains(name, "female") {
            CheckVoiceButton(false, voices);
          }
          return;
        }
        i := i + 1;
      }
      CheckVoiceButton(true, voices);
    }

    /**
     * The voice engine and the stored id after save_settings has run if the voice
     * buttons changed from (`male0`, `female0`), or are unchanged if they did not.
     */
    predicate VoiceSaved(male0: bool, female0: bool, voice0: Option<string>, saved0: Option<string>, voices: seq<Voices.Voice>)
      reads this
    {
      var v := SavedVoice(voices, maleChecked, femaleChecked);
      var runs := maleChecked != male0 || femaleChecked != female0;
      engineVoice == (if runs && v.Some? then v else voice0) &&
      savedVoiceId == (if runs && v.Some? then v else saved0)
    }

    /**
     * The user, or load_settings, checks the male (`male`) or the female voice button;
     * the buttons are exclusive, and when either changes state its `toggled` signal
     * runs save_settings.
     */
    method CheckVoiceButton(male: bool, voices: seq<Voices.Voice>)
      modifies this
      ensures maleChecked == male && femaleChecked == !male
      ensures VoiceSaved(old(maleChecked), old(femaleChecked), old(engineVoice), old(savedVoiceId), voices)
      ensures State() == old(State())
    {
      var changed := maleChecked != male || femaleChecked != !male;
      maleChecked, femaleChecked := male, !male;
      if changed {
        SaveSettings(voices);
      }
    }

    /**
     * save_settings: the first voice whose name fits a checked button (containing
     * 'male' for the male one, 'female' for the female one) becomes the engine's voice
     * and the stored id; when none fits, nothing changes.
     */
    method SaveSettings(voices: seq<Voices.Voice>)
      modifies this
      ensures var v := SavedVoice(voices, maleChecked, femaleChecked);
        engineVoice == (if v.Some? then v else old(engineVoice)) &&
        savedVoiceId == (if v.Some? then v else old(savedVoiceId))
      ensures State() == old(State()) && maleChecked == old(maleChecked) && femaleChecked == old(femaleChecked)
    {
      var male, female := maleChecked, femaleChecked;
      ghost var keywords := GenderKeywords(male, female);
      var i := 0;
      while i < |voices|
        invariant 0 <= i <= |voices|
        invariant forall j | 0 <= j < i :: !Voices.Matches(voices[j], keywords)
        invariant unchanged(this)
      {
        var name := Lower(voices[i].name);
        GenderKeywordsMeaning(voices[i], male, female);
        if (male && Contains(name, "male")) || (female && Contains(name, "female")) {
          Voices.FirstMatchIsFirst(voices, keywords, i);
          savedVoiceId, engineVoice := Some(voices[i].id), Some(voices[i].id);
          return;
        }
        i := i + 1;
      }
      Voices.FirstMatchNone(voices, keywords);
    }

    /** The user checks a reading-range radio button or edits the page field. */
    method ChooseReadMode(mode: Mode, entry: string)
      modifies this
      ensures State() == old(State()).(setup := Setup(mode, 0, entry))
      ensures maleChecked == old(maleChecked) && femaleChecked == old(femaleChecked) && engineVoice == old(engineVoice)
      ensures savedVoiceId == old(savedVoiceId)
    {
      readMode, pageEntry := mode, entry;
    }

    /** get_voice_id. */
    method GetVoiceId(voices: seq<Voices.Voice>) returns (id: Option<string>)
      ensures id == Voices.Choose(voices, GenderKeywords(maleChecked, femaleChecked))
    {
      id := Voices.ScanVoices(voices, GenderKeywords(maleChecked, femaleChecked));
    }

    /** _set_current_read_page, behind the first, previous, next and last buttons. */
    method SetCurrentReadPage(page: int)
      modifies this
      ensures State() == GotoSpec(Dialog, old(State()), page)
      ensures maleChecked == old(maleChecked) && femaleChecked == old(femaleChecked) && engineVoice == old(engineVoice)
      ensures savedVoiceId == old(savedVoiceId)
    {
      if 0 <= page < totalPages {
        currentReadPage := page;
        pageEntry := IntToString(page + 1);
      }
    }

    /**
     * play_pause_resume: choose the engine's voice; then, unless a reading plays
     * unpaused, start (from the checked range, refusing a bad page field) or resume.
     */
    method PlayPauseResume(voices: seq<Voices.Voice>)
      modifies this
      ensures State() == PlayPauseSpec(Dialog, old(State()))
      ensures var v := Voices.Choose(voices, GenderKeywords(maleChecked, femaleChecked));
        engineVoice == if v.Some? && v.value != "" then v else old(engineVoice)
      ensures maleChecked == old(maleChecked) && femaleChecked == old(femaleChecked) && savedVoiceId == old(savedVoiceId)
    {
      SelectVoice(voices);
      StartOrResume();
    }

    /** The rest of play_pause_resume: unless a reading plays unpaused, start (from the checked range) or resume. */
    method StartOrResume()
      modifies this
      ensures State() == PlayPauseSpec(Dialog, old(State()))
      ensures engineVoice == old(engineVoice) && maleChecked == old(maleChecked) && femaleChecked == old(femaleChecked)
      ensures savedVoiceId == old(savedVoiceId)
    {
      if !isPlaying || isPaused {
        var start := StartingPage();
        if start.None? {
          return;
        }
        currentReadPage := start.value;
        if !isPlaying && !isPaused {
          isPlaying := true;
        } else if isPaused {
          isPaused := false;
        }
        btnStart, btnPause, btnStop := false, true, true;
      }
    }

    /** The first step of play_pause_resume: the engine takes the chosen voice, if it has a non-empty id. */
    method SelectVoice(voices: seq<Voices.Voice>)
      modifies this
      ensures var v := Voices.Choose(voices, GenderKeywords(maleChecked, femaleChecked));
        engineVoice == if v.Some? && v.value != "" then v else old(engineVoice)
      ensures State() == old(State()) && maleChecked == old(maleChecked) && femaleChecked == old(femaleChecked)
      ensures savedVoiceId == old(savedVoiceId)
    {
      var voiceId := GetVoiceId(voices);
      if voiceId.Some? && voiceId.value != "" {
        engineVoice := voiceId;
      }
    }

    /**
     * The page a press of play continues from: a stopped dialog reads its checked range
     * (None when the page field is not a page of the document), a running one stays put.
     */
    method StartingPage() returns (start: Option<int>)
      ensures start == if isPlaying then Some(currentReadPage) else StartPage(Dialog, State())
    {
      if isPlaying {
        return Some(currentReadPage);
      }
      if readMode == Start {
        start := Some(0);
      } else if readMode == Specific {
        var n := ParseInt(pageEntry);
        if n.None? || !(0 <= n.value - 1 < totalPages) {
          return None;
        }
        start := Some(n.value - 1);
      } else {
        start := Some(currentReadPage);
      }
    }

    method PauseSpeech()
      modifies this
      ensures State() == PauseSpec(Dialog, old(State()))
      ensures maleChecked == old(maleChecked) && femaleChecked == old(femaleChecked) && engineVoice == old(engineVoice)
      ensures savedVoiceId == old(savedVoiceId)
    {
      if isPlaying && !isPaused {
        isPaused := true;
        btnStart, btnPause := true, false;
      }
    }

    method StopSpeech()
      modifies this
      ensures State() == StopSpec(Dialog, old(State()))
      ensures maleChecked == old(maleChecked) && femaleChecked == old(femaleChecked) && engineVoice == old(engineVoice)
      ensures savedVoiceId == old(savedVoiceId)
    {
      isPlaying, isPaused := false, false;
      btnStart, btnPause, btnStop := true, false, false;
    }

    /** A press while a page is spoken. */
    method Press(c: Command, voices: seq<Voices.Voice>)
      modifies this
      ensures State() == Apply(Dialog, old(State()), c)
      ensures maleChecked == old(maleChecked) && femaleChecked == old(femaleChecked) && savedVoiceId == old(savedVoiceId)
    {
      match c {
        case Idle =>
        case PlayPause => PlayPauseResume(voices);
        case Pause => PauseSpeech();
        case Stop => StopSpeech();
        case Goto(p) => SetCurrentReadPage(p);
      }
    }

    /** The rest of a turn of _run_tts_loop after a page is spoken: the press made meanwhile, if any, then the next page becomes current. */
    method PageSpoken(i: int, press: Option<Command>, voices: seq<Voices.Voice>)
      modifies this
      ensures State() == (if press.Some? then Apply(Dialog, old(State()), press.value) else old(State())).(current := i + 1)
    {
      if press.Some? {
        Press(press.value, voices);
      }
      currentReadPage := i + 1;
    }

    /** _run_tts_loop: the worker thread's body. */
    method RunTtsLoop(texts: seq<string>, script: seq<Command>, voices: seq<Voices.Voice>) returns (log: seq<Event>)
      modifies this
      ensures var r := WorkerSpec(Dialog, old(State()), texts, script);
        State() == r.state && log == r.log
    {
      var i, k := currentReadPage, 0;
      log := [];
      ghost var goal := Loop(Dialog, State(), i, texts, script, []);
      while i < totalPages
        invariant 0 <= k <= |script|
        invariant Loop(Dialog, State(), i, texts, script[k..], log) == goal
        decreases totalPages - i
      {
        if !isPlaying {
          break;
        }
        var text := ReadingRange.RawPageText(texts, i);
        if text != "" {
          ghost var s := State();
          var press := if k < |script| then Some(script[k]) else None;
          var rest := if k < |script| then k + 1 else k;
          if k < |script| {
            assert script[k..][1..] == script[k + 1..];
          }
          assert Loop(Dialog, s, i, texts, script[k..], log) ==
            Loop(Dialog, (if press.Some? then Apply(Dialog, s, press.value) else s).(current := i + 1), i + 1, texts, script[rest..], log + [Speak(i)]);
          log := log + [Speak(i)];
          PageSpoken(i, press, voices);
          k := rest;
        }
        i := i + 1;
      }
      StopSpeech();
    }
  }
}
