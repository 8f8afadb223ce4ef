/**
 * Version 2.2 of the reader (old/app_main_v2.2.py): the parts of its narration player
 * beyond the shared playback code — the speech engine that may fail to start, the
 * male/female voice type with its two stored flags, the voice choice by a single
 * gender word, and the buttons that `update_buttons` enables.
 */
module AppMainV22 {
  import opened Text
  import Voices
  import Playback

  datatype VoiceType = Male | Female

  /** save_settings: the two stored flags tts_use_male and tts_use_female. */
  function StoredFlags(t: VoiceType): (r: (bool, bool))
    ensures r.0 != r.1
    ensures r.1 <==> t == Female
  {
    (t == Male, t == Female)
  }

  /** load_settings: the stored female flag alone decides the voice type. */
  function StoredVoiceType(useMale: bool, useFemale: bool): (t: VoiceType)
    ensures t == Female <==> useFemale
  {
    if useFemale then Female else Male
  }

  /** Saving and loading the settings gives back the voice type. */
  lemma VoiceTypeRoundTrip(t: VoiceType)
    ensures StoredVoiceType(StoredFlags(t).0, StoredFlags(t).1) == t
  {
  }

  /** The one word a voice name must contain for the voice type. */
  function TargetKeywords(t: VoiceType): seq<string> {
    if t == Female then ["female"] else ["male"]
  }

  /** The play/pause symbol and whether the four navigation buttons are enabled. */
  datatype Buttons = Buttons(showsPause: bool, navigation: bool)

  /** Navigation is possible exactly while nothing plays, and each toggle flips the play/pause symbol. */
  lemma ButtonsFollowPlayback(s: Playback.Player)
    ensures Playback.ShowsPause(s) ==> s.playing
    ensures Playback.ShowsPause(Playback.ToggleSpec(s)) <==> !Playback.ShowsPause(s)
    ensures !Playback.StopSpec(s).playing
  {
    Playback.ToggleFlipsButton(s);
  }

  class TTSPlayerWidget {
    const player: Playback.TTSPlayerWidget
    var hasEngine: bool
    var currentVoiceType: VoiceType
    var voiceId: Option<string>

    /**
     * `__init__`: the fields, then load_settings with the stored flags, then
     * init_tts_engine, which applies the voice settings when `pyttsx3.init()` succeeds
     * (`engineStarts`) with the engine's `voices`.
     */
    constructor(totalPages: int, currentPage: int, useMale: bool, useFemale: bool, engineStarts: bool, voices: seq<Voices.Voice>)
      ensures fresh(player) && player.State() == Playback.Player(totalPages, currentPage, false, false, false, Playback.Current, 0)
      ensures currentVoiceType == StoredVoiceType(useMale, useFemale) && hasEngine == engineStarts
      ensures voiceId == if engineStarts && voices != [] then Voices.Choose(voices, TargetKeywords(currentVoiceType)) else None
    {
      player := new Playback.TTSPlayerWidget(totalPages, currentPage);
      hasEngine := false;
      currentVoiceType := Male;
      voiceId := None;
      new;
      LoadSettings(useMale, useFemale);
      hasEngine := engineStarts;
      if engineStarts {
        ApplyVoiceSettings(voices);
      }
    }

    method LoadSettings(useMale: bool, useFemale: bool)
      modifies this
      ensures currentVoiceType == StoredVoiceType(useMale, useFemale)
      ensures hasEngine == old(hasEngine) && voiceId == old(voiceId)
    {
      if useFemale {
        currentVoiceType := Female;
      } else {
        currentVoiceType := Male;
      }
    }

    method SaveSettings() returns (useMale: bool, useFemale: bool)
      ensures (useMale, useFemale) == StoredFlags(currentVoiceType)
    {
      useMale := currentVoiceType == Male;
      useFemale := currentVoiceType == Female;
    }

    /**
     * apply_voice_settings: nothing without an engine or without voices; otherwise the
     * first voice whose name contains the target word, else the first voice.
     */
    method ApplyVoiceSettings(voices: seq<Voices.Voice>)
      modifies this
      ensures hasEngine && voices != [] ==> voiceId == Voices.Choose(voices, TargetKeywords(currentVoiceType)) && voiceId.Some?
      ensures !hasEngine || voices == [] ==> voiceId == old(voiceId)
      ensures hasEngine == old(hasEngine) && currentVoiceType == old(currentVoiceType)
    {
      if !hasEngine || voices == [] {
        return;
      }
      voiceId := Voices.ScanVoices(voices, TargetKeywords(currentVoiceType));
      Voices.ChosenComesFromList(voices, TargetKeywords(currentVoiceType));
    }

    method UpdateButtons() returns (b: Buttons)
      ensures b.showsPause <==> Playback.ShowsPause(player.State())
      ensures b.navigation <==> !player.isPlaying
    {
      b := Buttons(player.isPlaying && !player.isPaused, !player.isPlaying);
    }

    /**
     * start_playback: without an engine it first tries to start one (`engineStarts`),
     * choosing a voice when it does, and gives up when it does not.
     */
    method StartPlayback(engineStarts: bool, voices: seq<Voices.Voice>)
      modifies this, player
      ensures hasEngine <==> old(hasEngine) || engineStarts
      ensures hasEngine ==> player.State() == Playback.StartSpec(old(player.State()))
      ensures !hasEngine ==> player.State() == old(player.State())
      ensures currentVoiceType == old(currentVoiceType)
    {
      if !hasEngine {
        hasEngine := engineStarts;
        if !hasEngine {
          return;
        }
        ApplyVoiceSettings(voices);
      }
      player.StartPlayback();
    }
  }
}
