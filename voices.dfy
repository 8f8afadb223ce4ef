/**
 * Voice selection shared by every version of the reader: scan the speech engine's
 * voices in order and take the first one whose lower-cased name contains one of the
 * gender keywords; when none does, fall back to the first voice, and when the engine
 * has no voices, nothing is chosen.
 */
module Voices {
  import opened Text

  datatype Voice = Voice(id: string, name: string)

  const FemaleKeywords: seq<string> := ["female", "женск"]
  const MaleKeywords: seq<string> := ["male", "мужск"]

  /** The voice's lower-cased name contains one of the keywords. */
  predicate Matches(v: Voice, keywords: seq<string>) {
    exists k | 0 <= k < |keywords| :: Contains(Lower(v.name), keywords[k])
  }

  /** Index of the first matching voice. */
  function FirstMatch(voices: seq<Voice>, keywords: seq<string>): (r: Option<nat>)
    ensures r.Some? ==> r.value < |voices| && Matches(voices[r.value], keywords)
    ensures r.Some? ==> forall j | 0 <= j < r.value :: !Matches(voices[j], keywords)
    ensures r.None? ==> forall j | 0 <= j < |voices| :: !Matches(voices[j], keywords)
  {
    if voices == [] then None
    else if Matches(voices[0], keywords) then Some(0)
    else match FirstMatch(voices[1..], keywords)
      case None => None
      case Some(i) => Some(i + 1)
  }

  /** The voice id the heuristic settles on: the first match, else the first voice. */
  function Choose(voices: seq<Voice>, keywords: seq<string>): Option<string> {
    match FirstMatch(voices, keywords)
    case Some(i) => Some(voices[i].id)
    case None => if voices == [] then None else Some(voices[0].id)
  }

  /**
   * The scan as the sources write it: a loop over the voices that returns at the first
   * match, then the first voice if there is one.
   */
  method ScanVoices(voices: seq<Voice>, keywords: seq<string>) returns (chosen: Option<string>)
    ensures chosen == Choose(voices, keywords)
  {
    var i := 0;
    while i < |voices|
      invariant 0 <= i <= |voices|
      invariant forall j | 0 <= j < i :: !Matches(voices[j], keywords)
    {
      var lowered := Lower(voices[i].name);
      var k := 0;
      while k < |keywords|
        invariant 0 <= k <= |keywords|
        invariant forall m | 0 <= m < k :: !Contains(lowered, keywords[m])
      {
        if Contains(lowered, keywords[k]) {
          assert Matches(voices[i], keywords);
          FirstMatchIsFirst(voices, keywords, i);
          return Some(voices[i].id);
        }
        k := k + 1;
      }
      i := i + 1;
    }
    FirstMatchNone(voices, keywords);
    if |voices| > 0 {
      chosen := Some(voices[0].id);
    } else {
      chosen := None;
    }
  }

  lemma FirstMatchIsFirst(voices: seq<Voice>, keywords: seq<string>, i: nat)
    requires i < |voices| && Matches(voices[i], keywords)
    requires forall j | 0 <= j < i :: !Matches(voices[j], keywords)
    ensures FirstMatch(voices, keywords) == Some(i)
  {
  }

  lemma FirstMatchNone(voices: seq<Voice>, keywords: seq<string>)
    requires forall j | 0 <= j < |voices| :: !Matches(voices[j], keywords)
    ensures FirstMatch(voices, keywords) == None
  {
  }

  /**
   * Whatever is chosen is the id of a voice in the list, and something is chosen
   * exactly when the list is not empty.
   */
  lemma ChosenComesFromList(voices: seq<Voice>, keywords: seq<string>)
    ensures Choose(voices, keywords).Some? <==> voices != []
    ensures Choose(voices, keywords).Some? ==>
      exists i | 0 <= i < |voices| :: voices[i].id == Choose(voices, keywords).value
    ensures (forall j | 0 <= j < |voices| :: !Matches(voices[j], keywords)) && voices != [] ==>
      Choose(voices, keywords) == Some(voices[0].id)
  {
    match FirstMatch(voices, keywords)
    case Some(i) =>
      assert voices[i].id == Choose(voices, keywords).value;
    case None =>
      if voices != [] {
        assert voices[0].id == Choose(voices, keywords).value;
      }
  }

  /** Whenever some voice matches, the chosen one is the first that does. */
  lemma ChoosesFirstMatch(voices: seq<Voice>, keywords: seq<string>, i: nat)
    requires i < |voices| && Matches(voices[i], keywords)
    ensures exists j | 0 <= j <= i :: Matches(voices[j], keywords) && Choose(voices, keywords) == Some(voices[j].id)
  {
    var j := FirstMatch(voices, keywords).value;
    assert j <= i;
  }

  lemma ContainsShift(s: string, sub: string, i: nat)
    requires OccursAt(s, sub, i)
    ensures Contains(s, sub)
  {
  }

  /** "male" occurs inside "female", two characters in. */
  lemma FemaleContainsMale(s: string)
    requires Contains(s, "female")
    ensures Contains(s, "male")
  {
    var i :| 0 <= i <= |s| && OccursAt(s, "female", i);
    assert s[i + 2..i + 6] == s[i..i + 6][2..6] == "male";
    ContainsShift(s, "male", i + 2);
  }

  /**
   * A voice whose name contains "female" satisfies the male test, so a request for a
   * male voice can land on a female one.
   */
  lemma FemaleNameMatchesMale(v: Voice)
    requires Contains(Lower(v.name), "female")
    ensures Matches(v, MaleKeywords)
  {
    FemaleContainsMale(Lower(v.name));
    assert Contains(Lower(v.name), MaleKeywords[0]);
  }

  /** A list in which a female voice comes first gives that voice for a male request. */
  lemma MaleRequestPicksFemaleVoice(female: Voice, male: Voice)
    requires Contains(Lower(female.name), "female")
    ensures Choose([female, male], MaleKeywords) == Some(female.id)
  {
    FemaleNameMatchesMale(female);
    assert Matches([female, male][0], MaleKeywords);
  }
}
