/**
 * The appliance's sound player (SoundPlayer): the prompts it can play, the
 * resource file each one lives in for the configured language, the fallback
 * to the error prompt, and the clip that is playing.
 *
 * The class loader's resources are a set of file names; a clip's life is
 * driven from outside by the STOP events the audio line delivers.
 */
module Sounds {
  import opened Common

  /** SoundPlayer.Sound */
  datatype Sound =
    | Start | BeginQuestion | QuestionReceived | QuestionNumberAllocated | QuestionNumberInvalid
    | QuestionReceivedHint | AnswerNotReady | AnswerReady | Error
    | Number0 | Number1 | Number2 | Number3 | Number4 | Number5 | Number6 | Number7 | Number8 | Number9
    | NumberHint1234

  /** The enum constant's name, as toString() gives it. */
  function SoundName(s: Sound): string
  {
    match s
    case Start => "start"
    case BeginQuestion => "begin_question"
    case QuestionReceived => "question_received"
    case QuestionNumberAllocated => "question_number_allocated"
    case QuestionNumberInvalid => "question_number_invalid"
    case QuestionReceivedHint => "question_received_hint"
    case AnswerNotReady => "answer_not_ready"
    case AnswerReady => "answer_ready"
    case Error => "error"
    case Number0 => "number_0"
    case Number1 => "number_1"
    case Number2 => "number_2"
    case Number3 => "number_3"
    case Number4 => "number_4"
    case Number5 => "number_5"
    case Number6 => "number_6"
    case Number7 => "number_7"
    case Number8 => "number_8"
    case Number9 => "number_9"
    case NumberHint1234 => "number_hint_1234"
  }

  /** Distinct sounds have distinct names, so each has its own resource file. */
  lemma SoundNamesDistinct(a: Sound, b: Sound)
    ensures SoundName(a) == SoundName(b) <==> a == b
  {
  }

  /** getSoundForNumber: the spoken digit for 0 .. 9, the error prompt for anything else. */
  function SoundForNumber(n: int): (s: Sound)
    ensures 0 <= n <= 9 ==> SoundName(s) == "number_" + [DigitChar(n)]
    ensures !(0 <= n <= 9) <==> s == Error
  {
    if n == 0 then Number0 else if n == 1 then Number1 else if n == 2 then Number2
    else if n == 3 then Number3 else if n == 4 then Number4 else if n == 5 then Number5
    else if n == 6 then Number6 else if n == 7 then Number7 else if n == 8 then Number8
    else if n == 9 then Number9 else Error
  }

  /** Different digits are spoken differently. */
  lemma SoundForDigitsDistinct(m: int, n: int)
    requires 0 <= m <= 9 && 0 <= n <= 9
    ensures SoundForNumber(m) == SoundForNumber(n) <==> m == n
  {
  }

  /** getResourceFilename: "<name>_<language>.wav". */
  function ResourceFilename(languageCode: string, name: string): (f: string)
    ensures |f| == |name| + |languageCode| + 5
  {
    name + "_" + languageCode + ".wav"
  }

  /** For one language, the resource file name gives the sound name back. */
  lemma ResourceFilenameInjective(languageCode: string, a: string, b: string)
    requires ResourceFilename(languageCode, a) == ResourceFilename(languageCode, b)
    ensures a == b
  {
    assert |a| == |b|;
    assert a == ResourceFilename(languageCode, a)[..|a|];
    assert b == ResourceFilename(languageCode, b)[..|b|];
  }

  /**
   * getSound: the sound's own resource, else the error prompt's; with the
   * error prompt missing too, the recursion never ends (None: a
   * StackOverflowError).
   */
  function GetSound(resources: set<string>, languageCode: string, s: Sound): (r: Option<string>)
    ensures r.Some? ==> r.value in resources
    ensures r.Some? ==> r.value == ResourceFilename(languageCode, SoundName(s))
                        || r.value == ResourceFilename(languageCode, SoundName(Error))
  {
    var own := ResourceFilename(languageCode, SoundName(s));
    var error := ResourceFilename(languageCode, SoundName(Error));
    if own in resources then Some(own) else if error in resources then Some(error) else None
  }

  /** The resource found is present, is the sound's own when that is present, and falls back only to the error prompt. */
  lemma GetSoundFallback(resources: set<string>, languageCode: string, s: Sound)
    ensures GetSound(resources, languageCode, s).Some? ==> GetSound(resources, languageCode, s).value in resources
    ensures ResourceFilename(languageCode, SoundName(s)) in resources ==>
              GetSound(resources, languageCode, s) == Some(ResourceFilename(languageCode, SoundName(s)))
    ensures ResourceFilename(languageCode, SoundName(s)) !in resources ==>
              GetSound(resources, languageCode, s) == GetSound(resources, languageCode, Error)
    ensures GetSound(resources, languageCode, s).None? <==>
              ResourceFilename(languageCode, SoundName(s)) !in resources && ResourceFilename(languageCode, SoundName(Error)) !in resources
  {
  }

  /** How far starting a clip gets: all the way, or an exception at one of its stages. */
  datatype ClipStart = Starts | StreamFails | LineUnavailable | OpenFails

  /** A clip obtained from the audio system, the completion callback its listener holds, and what has happened to it. */
  datatype Clip = Clip(sound: Sound, callback: Option<nat>, started: bool, stopDelivered: bool, closed: bool)

  /** What the player does, in order. */
  datatype PlayerEffect =
    | StopRequested(clip: nat)
    | Started(clip: nat, resource: string)
    | Closed(clip: nat)
    | CallbackRan(callback: nat)

  /** The result of playSoundResource: it returns (whether or not it logged a caught exception), or a StackOverflowError leaves it. */
  datatype PlayOutcome = Returned | StackOverflow

  /**
   * The player's invariant: the current clip is one of the clips; a clip's
   * callback runs once at most, and only after that clip's STOP event; a
   * clip only stops after it was started.
   */
  ghost predicate PlayerInvariant(clips: seq<Clip>, currentClip: Option<nat>, completedClips: seq<nat>)
  {
    && (currentClip.Some? ==> currentClip.value < |clips|)
    && (forall k :: 0 <= k < |clips| && clips[k].stopDelivered ==> clips[k].started)
    && (forall i :: 0 <= i < |completedClips| ==>
          completedClips[i] < |clips| && clips[completedClips[i]].stopDelivered && clips[completedClips[i]].callback.Some?)
    && (forall i, j :: 0 <= i < j < |completedClips| ==> completedClips[i] != completedClips[j])
  }

  /** Obtaining a new clip, not yet stopped, and making it the current one keeps the invariant. */
  lemma NewClipKeepsInvariant(clips: seq<Clip>, currentClip: Option<nat>, completedClips: seq<nat>, c: Clip)
    requires PlayerInvariant(clips, currentClip, completedClips) && !c.stopDelivered
    ensures PlayerInvariant(clips + [c], Some(|clips|), completedClips)
  {
    var clips' := clips + [c];
    forall i | 0 <= i < |completedClips|
      ensures clips'[completedClips[i]] == clips[completedClips[i]]
    {
    }
  }

  /** Starting a clip keeps the invariant. */
  lemma StartKeepsInvariant(clips: seq<Clip>, currentClip: Option<nat>, completedClips: seq<nat>, k: nat)
    requires PlayerInvariant(clips, currentClip, completedClips) && k < |clips|
    ensures PlayerInvariant(clips[k := clips[k].(started := true)], currentClip, completedClips)
  {
  }

  /** The stop request sent to the current clip, if there is one, before a new sound is opened. */
  function StopFirst(currentClip: Option<nat>): seq<PlayerEffect>
  {
    if currentClip.Some? then [StopRequested(currentClip.value)] else []
  }

  class SoundPlayer {
    const languageCode: string
    /** The resources the class loader can find. */
    const resources: set<string>
    /** Every clip obtained so far; mCurrentClip indexes into it. */
    var clips: seq<Clip>
    var currentClip: Option<nat>
    var effects: seq<PlayerEffect>
    /** The clips whose callbacks have run, in order. */
    var completedClips: seq<nat>

    /** The player's invariant, on its own state. */
    ghost predicate Valid()
      reads this
    {
      PlayerInvariant(clips, currentClip, completedClips)
    }

    constructor (language: string, available: set<string>)
      ensures languageCode == language && resources == available
      ensures Valid() && clips == [] && currentClip == None && effects == [] && completedClips == []
    {
      languageCode := language;
      resources := available;
      clips := [];
      currentClip := None;
      effects := [];
      completedClips := [];
    }

    /**
     * playSoundResource: any current clip is stopped first; then the sound's
     * resource (or the fallback) is opened in a new clip whose listener will
     * run the callback on STOP, and the clip starts.
     */
    method PlaySoundResource(s: Sound, callback: Option<nat>, start: ClipStart) returns (outcome: PlayOutcome)
      requires Valid()
      modifies this`clips, this`currentClip, this`effects
      ensures Valid() && completedClips == old(completedClips)
      ensures GetSound(resources, languageCode, s).None? ==>
                outcome == StackOverflow && clips == old(clips) && currentClip == old(currentClip)
                && effects == old(effects) + StopFirst(old(currentClip))
      ensures GetSound(resources, languageCode, s).Some? && (start == StreamFails || start == LineUnavailable) ==>
                outcome == Returned && clips == old(clips) && currentClip == old(currentClip)
                && effects == old(effects) + StopFirst(old(currentClip))
      ensures GetSound(resources, languageCode, s).Some? && start == OpenFails ==>
                && outcome == Returned && clips == old(clips) + [Clip(s, callback, false, false, false)]
                && currentClip == Some(|old(clips)|) && effects == old(effects) + StopFirst(old(currentClip))
      ensures GetSound(resources, languageCode, s).Some? && start == Starts ==>
                && outcome == Returned && clips == old(clips) + [Clip(s, callback, true, false, false)]
                && currentClip == Some(|old(clips)|)
                && effects == old(effects) + StopFirst(old(currentClip)) + [Started(|old(clips)|, GetSound(resources, languageCode, s).value)]
    {
      var stopFirst := StopFirst(currentClip);
      var url := GetSound(resources, languageCode, s);
      if url.None? || start == StreamFails || start == LineUnavailable {
        effects := effects + stopFirst;
        outcome := if url.None? then StackOverflow else Returned;
        return;
      }
      var clip := Clip(s, callback, start == Starts, false, false);
      NewClipKeepsInvariant(clips, currentClip, completedClips, clip);
      var started := if start == Starts then [Started(|clips|, url.value)] else [];
      effects := effects + stopFirst + started;
      currentClip := Some(|clips|);
      clips := clips + [clip];
      outcome := Returned;
    }

    /**
     * The STOP event of clip k, whether it was stopped or played to its end:
     * the listener closes the clip mCurrentClip refers to at that moment,
     * which is a newer clip if one has been started since, and runs clip k's
     * callback if it has one.
     */
    method StopEvent(k: nat)
      requires Valid() && k < |clips| && clips[k].started && !clips[k].stopDelivered
      modifies this`clips, this`effects, this`completedClips
      ensures Valid() && currentClip == old(currentClip) && |clips| == |old(clips)|
      ensures clips[k].stopDelivered
      ensures var closing := if old(currentClip).Some? then [Closed(old(currentClip).value)] else [];
              var ran := if old(clips[k].callback).Some? then [CallbackRan(old(clips[k].callback).value)] else [];
              effects == old(effects) + closing + ran
      ensures completedClips == old(completedClips) + if old(clips[k].callback).Some? then [k] else []
    {
      clips := clips[k := clips[k].(stopDelivered := true)];
      if currentClip.Some? {
        var c := currentClip.value;
        clips := clips[c := clips[c].(closed := true)];
        effects := effects + [Closed(c)];
      }
      if clips[k].callback.Some? {
        effects := effects + [CallbackRan(clips[k].callback.value)];
        completedClips := completedClips + [k];
      }
    }
  }
}
