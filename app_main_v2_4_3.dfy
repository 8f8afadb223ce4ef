/**
 * Version 2.4.3 of the reader (old/app_main_v2.4.3.py): the parts of its narration
 * player beyond the shared playback code — the stored voice flags, the voice choice by
 * wider keyword lists, and the play/pause symbol of `update_buttons`.
 */
module AppMainV243 {
  import opened Text
  import Voices
  import Playback

  const FemaleKeywords: seq<string> := ["female", "женск", "woman"]
  const MaleKeywords: seq<string> := ["male", "мужск", "russian", "русск"]

  /** The keywords for the stored female flag. */
  function VoiceKeywords(useFemale: bool): seq<string> {
    if useFemale then FemaleKeywords else MaleKeywords
  }

  /**
   * A voice with "russian" in its name counts as male: a male request picks the first
   * Russian voice, whatever its gender, when no earlier voice matches.
   */
  lemma RussianVoiceCountsAsMale(v: Voices.Voice)
    requires Contains(Lower(v.name), "russian")
    ensures Voices.Matches(v, MaleKeywords)
    ensures Voices.Choose([v], VoiceKeywords(false)) == Some(v.id)
  {
    assert Contains(Lower(v.name), MaleKeywords[2]);
    assert Voices.Matches([v][0], MaleKeywords);
  }

  /** "male" lies inside "female", so a female voice listed first also answers a male request. */
  lemma FemaleVoiceAnswersMaleRequest(female: Voices.Voice, other: Voices.Voice)
    requires Contains(Lower(female.name), "female")
    ensures Voices.Choose([female, other], VoiceKeywords(false)) == Some(female.id)
  {
    Voices.FemaleNameMatchesMale(female);
    var s := Lower(female.name);
    assert Voices.Matches(female, Voices.MaleKeywords);
    var k :| 0 <= k < |Voices.MaleKeywords| && Contains(s, Voices.MaleKeywords[k]);
    if k == 0 {
      assert Contains(s, MaleKeywords[0]);
    } else {
      assert Contains(s, MaleKeywords[1]);
    }
    assert Voices.Matches([female, other][0], MaleKeywords);
  }

  class TTSPlayerWidget {
    const player: Playback.TTSPlayerWidget
    var useMale: bool
    var useFemale: bool
    /** The voice the speech engine is set to, if any was set. */
    var voice: Option<string>

    /** `__init__`: the fields, then load_settings with the stored flags, then apply_voice_settings with the engine's `voices`. */
    constructor(totalPages: int, currentPage: int, storedMale: bool, storedFemale: bool, voices: seq<Voices.Voice>)
      ensures fresh(player) && player.State() == Playback.Player(totalPages, currentPage, false, false, false, Playback.Current, 0)
      ensures useMale == storedMale && useFemale == storedFemale
      ensures voice == if voices != [] then Voices.Choose(voices, VoiceKeywords(storedFemale)) else None
    {
      player := new Playback.TTSPlayerWidget(totalPages, currentPage);
      useMale, useFemale := true, false;
      voice := None;
      new;
      LoadSettings(storedMale, storedFemale);
      ApplyVoiceSettings(voices);
    }

    method LoadSettings(storedMale: bool, storedFemale: bool)
      modifies this
      ensures useMale == storedMale && useFemale == storedFemale && voice == old(voice)
    {
      useMale, useFemale := storedMale, storedFemale;
    }

    /**
     * apply_voice_settings: the first voice matching the keywords of the stored flag,
     * else the first voice; with no voices the engine's voice is left as it was.
     */
    method ApplyVoiceSettings(voices: seq<Voices.Voice>)
      modifies this
      ensures voices != [] ==> voice == Voices.Choose(voices, VoiceKeywords(useFemale))
      ensures voices == [] ==> voice == old(voice)
      ensures voice.Some? && voice != old(voice) ==> exists i | 0 <= i < |voices| :: voices[i].id == voice.value
      ensures useMale == old(useMale) && useFemale == old(useFemale)
    {
      Voices.ChosenComesFromList(voices, VoiceKeywords(useFemale));
      if voices != [] {
        voice := Voices.ScanVoices(voices, VoiceKeywords(useFemale));
      }
    }

    method UpdateButtons() returns (showsPause: bool)
      ensures showsPause <==> Playback.ShowsPause(player.State())
    {
      showsPause := player.isPlaying && !player.isPaused;
    }
  }
}
