/**
 * The speech appliance's question recorder (SilenceDetectingAudioRecorder):
 * it records from the microphone until the speaker has been silent long
 * enough after a minimum duration, or until a maximum duration, then encodes
 * the recording to mp3 and reports through its callback.
 *
 * Each 512-sample frame of the dispatcher is reduced to one fact: whether its
 * sound pressure level was above the silence threshold. The dispatcher thread,
 * the oscilloscope and the mp3 encoder are represented by the effects the
 * recorder has on them.
 */
module SilenceRecorder {
  import opened Common

  /** Pss2.SILENCE_TIMEOUT_MS, DURATION_MINIMUM_MS and DURATION_MAXIMUM_MS. */
  const SILENCE_TIMEOUT_MS: nat := 3000
  const DURATION_MINIMUM_MS: nat := 5000
  const DURATION_MAXIMUM_MS: nat := 15000

  /**
   * Math.round(ms * bufferToMsFactor), where the factor is 32000 / 512 / 1000
   * = 1/16 exactly: the nearest whole number of frames, halves rounded up.
   */
  function MsToFrames(ms: nat): (frames: nat)
    ensures 16 * frames <= ms + 8 < 16 * frames + 16
  {
    (ms + 8) / 16
  }

  datatype Thresholds = Thresholds(silenceTimeout: int, durationMinimum: int, durationMaximum: int)

  function DefaultThresholds(): Thresholds
  {
    Thresholds(MsToFrames(SILENCE_TIMEOUT_MS), MsToFrames(DURATION_MINIMUM_MS), MsToFrames(DURATION_MAXIMUM_MS))
  }

  /** Three seconds of silence, five seconds minimum and fifteen maximum are 188, 313 and 938 frames. */
  lemma DefaultThresholdValues()
    ensures DefaultThresholds() == Thresholds(188, 313, 938)
  {
  }

  /** mCountSilentSamplesDetected and mCountTotalSamplesRecorded. */
  datatype Counters = Counters(silent: int, total: int)

  /**
   * How often one frame of process() calls stopRecording, as written: the
   * silence check and the maximum-duration check are independent, so both can
   * fire in the same frame.
   */
  function StopCallsAsWritten(c: Counters, t: Thresholds, loud: bool): (n: nat)
    ensures n <= 2
  {
    var silenceStop := !loud && c.silent + 1 >= t.silenceTimeout && c.total >= t.durationMinimum;
    var maximumStop := c.total + 1 >= t.durationMaximum;
    (if silenceStop then 1 else 0) + (if maximumStop then 1 else 0)
  }

  /** The counters after one frame: a loud frame resets the silent count, every frame counts towards the total. */
  function Next(c: Counters, loud: bool): Counters
  {
    Counters(if loud then 0 else c.silent + 1, c.total + 1)
  }

  /** The number of silent frames at the end of `frames`. */
  function TrailingSilent(frames: seq<bool>): (n: nat)
    ensures n <= |frames|
  {
    if frames == [] || frames[|frames| - 1] then 0 else TrailingSilent(frames[..|frames| - 1]) + 1
  }

  /** The counters after the frames of one recording, from the zeros startRecording sets. */
  function Counts(frames: seq<bool>): Counters
  {
    Counters(TrailingSilent(frames), |frames|)
  }

  /** Counting frame by frame keeps the counters equal to the run length and the trailing silence. */
  lemma CountsNext(frames: seq<bool>, loud: bool)
    ensures Next(Counts(frames), loud) == Counts(frames + [loud])
  {
    assert (frames + [loud])[..|frames|] == frames;
  }

  /**
   * The trailing silent count means what it says: the last n frames were all
   * silent, and the frame before them, if any, was loud.
   */
  lemma {:induction false} TrailingSilentMeaning(frames: seq<bool>)
    ensures forall i :: |frames| - TrailingSilent(frames) <= i < |frames| ==> !frames[i]
    ensures TrailingSilent(frames) < |frames| ==> frames[|frames| - 1 - TrailingSilent(frames)]
  {
    if frames != [] && !frames[|frames| - 1] {
      var init := frames[..|frames| - 1];
      TrailingSilentMeaning(init);
      forall i | |frames| - TrailingSilent(frames) <= i < |frames|
        ensures !frames[i]
      {
        if i < |frames| - 1 {
          assert frames[i] == init[i];
        }
      }
    }
  }

  /**
   * The stop policy over a whole recording: after `frames` without a stop,
   * the next frame stops the recording exactly when it completes the maximum
   * duration, or when it is silent, ends a run of silentTimeout silent frames
   * and at least durationMinimum frames came before it.
   */
  lemma StopPolicy(frames: seq<bool>, loud: bool, t: Thresholds)
    requires t.silenceTimeout >= 1
    ensures StopCallsAsWritten(Counts(frames), t, loud) > 0 <==>
              || |frames| + 1 >= t.durationMaximum
              || (&& |frames| >= t.durationMinimum
                  && TrailingSilent(frames + [loud]) >= t.silenceTimeout)
    ensures StopCallsAsWritten(Counts(frames), t, loud) > 0 && |frames| + 1 < t.durationMaximum ==>
              forall i :: |frames| + 1 - t.silenceTimeout <= i <= |frames| ==> !(frames + [loud])[i]
  {
    CountsNext(frames, loud);
    TrailingSilentMeaning(frames + [loud]);
  }

  /** No recording runs past the maximum: from the zero counters, frame number durationMaximum stops at the latest. */
  lemma MaximumStops(frames: seq<bool>, loud: bool, t: Thresholds)
    requires |frames| + 1 == t.durationMaximum
    ensures StopCallsAsWritten(Counts(frames), t, loud) > 0
  {
  }

  /**
   * One frame with the evidently intended behaviour: stopRecording runs at
   * most once, as when the maximum-duration check is skipped after a silence
   * stop.
   */
  function StopCalls(c: Counters, t: Thresholds, loud: bool): (n: nat)
    ensures n <= 1
    ensures c.total + 1 >= t.durationMaximum ==> n == 1
  {
    if !loud && c.silent + 1 >= t.silenceTimeout && c.total >= t.durationMinimum then 1
    else if c.total + 1 >= t.durationMaximum then 1
    else 0
  }

  /** The corrected frame stops exactly when the written one does, and never twice. */
  lemma StopCallsCorrected(c: Counters, t: Thresholds, loud: bool)
    ensures StopCalls(c, t, loud) <= 1
    ensures StopCalls(c, t, loud) == 1 <==> StopCallsAsWritten(c, t, loud) >= 1
  {
  }

  /** A recording that is loud for 750 frames and then silent. */
  function LateSilence(n: nat): seq<bool>
  {
    seq(n, i => i < 750)
  }

  lemma {:induction false} LateSilenceTrailing(n: nat)
    ensures TrailingSilent(LateSilence(n)) == if n <= 750 then 0 else n - 750
  {
    if n > 0 {
      assert LateSilence(n)[..n - 1] == LateSilence(n - 1);
      LateSilenceTrailing(n - 1);
    }
  }

  /**
   * As written, 750 loud frames followed by silence stop the recording twice
   * in frame 938: the silence timeout and the maximum duration are reached
   * together. No earlier frame stops it, so the first stopRecording runs on a
   * live dispatcher and the second one finds mDispatcher null.
   */
  lemma DoubleStop()
    ensures forall k :: 0 <= k < 937 ==> StopCallsAsWritten(Counts(LateSilence(k)), DefaultThresholds(), k < 750) == 0
    ensures StopCallsAsWritten(Counts(LateSilence(937)), DefaultThresholds(), false) == 2
  {
    forall k | 0 <= k < 937
      ensures StopCallsAsWritten(Counts(LateSilence(k)), DefaultThresholds(), k < 750) == 0
    {
      LateSilenceTrailing(k);
    }
    LateSilenceTrailing(937);
  }

  /** What the recorder does to the objects around it, in order. */
  datatype Effect =
    | OscilloscopeStarted
    | OscilloscopeStopped
    | DispatcherStopped
    | RecordingStarted
    | EncodingStarted
    | RecordingCompleted(mp3: string)
    | RecordingFailed

  /** The AudioDispatcher set in mDispatcher, and whether stop() was called on it. */
  datatype Dispatcher = Dispatcher(stopped: bool)

  /** The outcome of one process() call: it returns true, or a NullPointerException leaves it. */
  datatype ProcessOutcome = Returned(value: bool) | ThrewNullPointer

  /** The mp3's name: the raw file's name with ".wav" replaced by ".mp3". */
  function Mp3Name(raw: string): string
  {
    ReplaceAll(raw, ".wav", ".mp3")
  }

  /** The recording's mp3 keeps the raw name and changes only its extension. */
  lemma Mp3NameOfRecording(c: Clock)
    requires ValidDateTime(c.date) && c.date.year < 10000
    ensures Mp3Name(TimestampName(c, ".wav")) == TimestampName(c, ".mp3")
  {
    var p := NatToString(c.millis) + "_" + FormatDate(c.date);
    FormatDateShape(c.date);
    assert '.' !in NatToString(c.millis) by {
      forall i | 0 <= i < |NatToString(c.millis)| ensures NatToString(c.millis)[i] != '.' {
        assert IsDigit(NatToString(c.millis)[i]);
      }
    }
    assert '.' !in p by {
      forall i | 0 <= i < |p| ensures p[i] != '.' {
        if i < |NatToString(c.millis)| {
          assert p[i] == NatToString(c.millis)[i];
        } else if i > |NatToString(c.millis)| {
          assert p[i] == FormatDate(c.date)[i - |NatToString(c.millis)| - 1];
        }
      }
    }
    ReplaceSuffix(p, ".wav", ".mp3");
  }

  /** The final stage of stopRecording: the callback hears about the mp3 or about the failure. */
  function EncodingResult(raw: string, encoded: bool): Effect
  {
    if encoded then RecordingCompleted(Mp3Name(raw)) else RecordingFailed
  }

  class SilenceDetectingAudioRecorder {
    /** Whether a Mixer was given to the constructor; the caller in Pss2 passes none. */
    const hasMixer: bool
    var dispatcher: Option<Dispatcher>
    var rawOutputFile: string
    var counters: Counters
    var thresholds: Thresholds
    var effects: seq<Effect>
    /** The frames processed since recording started. */
    ghost var frames: seq<bool>

    constructor (mixer: bool)
      ensures hasMixer == mixer && dispatcher == None && effects == []
    {
      hasMixer := mixer;
      dispatcher := None;
      rawOutputFile := "";
      counters := Counters(0, 0);
      thresholds := Thresholds(0, 0, 0);
      effects := [];
      frames := [];
    }

    /** While the dispatcher runs, the counters are those of the frames it has delivered. */
    ghost predicate Recording()
      reads this
    {
      dispatcher == Some(Dispatcher(false)) && counters == Counts(frames) && thresholds == DefaultThresholds()
    }

    /**
     * startRecording: refused without a mixer or while a dispatcher exists;
     * otherwise the oscilloscope starts, the counters and thresholds are set
     * and, if the audio line opens, the dispatcher runs and the callback hears
     * that recording started.
     */
    method StartRecording(now: Clock, lineOpens: bool) returns (started: bool)
      requires ValidDateTime(now.date)
      modifies this
      ensures !hasMixer || old(dispatcher).Some? ==>
                !started && dispatcher == old(dispatcher) && effects == old(effects)
                && counters == old(counters) && rawOutputFile == old(rawOutputFile)
      ensures hasMixer && old(dispatcher).None? ==>
                && started == lineOpens
                && rawOutputFile == TimestampName(now, ".wav")
                && counters == Counters(0, 0) && thresholds == DefaultThresholds() && frames == []
                && effects == old(effects) + [OscilloscopeStarted] + (if lineOpens then [RecordingStarted] else [])
                && dispatcher == (if lineOpens then Some(Dispatcher(false)) else None)
      ensures started ==> Recording()
    {
      if !hasMixer || dispatcher.Some? {
        return false;
      }
      effects := effects + [OscilloscopeStarted];
      rawOutputFile := TimestampName(now, ".wav");
      counters := Counters(0, 0);
      frames := [];
      thresholds := Thresholds(MsToFrames(SILENCE_TIMEOUT_MS), MsToFrames(DURATION_MINIMUM_MS), MsToFrames(DURATION_MAXIMUM_MS));
      if !lineOpens {
        // LineUnavailableException or FileNotFoundException, caught
        return false;
      }
      dispatcher := Some(Dispatcher(false));
      effects := effects + [RecordingStarted];
      return true;
    }

    /**
     * stopRecording: the dispatcher is stopped, the oscilloscope too, the
     * callback hears that encoding started and then exactly one of completed
     * or failed; mDispatcher is cleared either way. On a null mDispatcher the
     * first call throws.
     */
    method StopRecording(encoded: bool) returns (threwNullPointer: bool)
      modifies this`dispatcher, this`effects
      ensures old(dispatcher).None? ==> threwNullPointer && dispatcher == None && effects == old(effects)
      ensures old(dispatcher).Some? ==>
                && !threwNullPointer && dispatcher == None
                && effects == old(effects) + [DispatcherStopped, OscilloscopeStopped, EncodingStarted, EncodingResult(rawOutputFile, encoded)]
    {
      if dispatcher.None? {
        return true;
      }
      dispatcher := Some(Dispatcher(true));
      effects := effects + [DispatcherStopped, OscilloscopeStopped, EncodingStarted];
      var mp3 := Mp3Name(rawOutputFile);
      if encoded {
        dispatcher := None;
        effects := effects + [RecordingCompleted(mp3)];
      } else {
        dispatcher := None;
        effects := effects + [RecordingFailed];
      }
      return false;
    }

    /**
     * process, for a frame whose level was above the threshold (`loud`) or
     * not. The dispatcher delivers frames only while it runs. The counters
     * follow the frames; a frame that stops the recording once returns true
     * with the recording finished, one that stops it twice throws.
     */
    method Process(loud: bool, encoded: bool) returns (outcome: ProcessOutcome)
      requires Recording()
      modifies this`dispatcher, this`effects, this`counters, this`frames
      ensures frames == old(frames) + [loud] && counters == Counts(frames)
      ensures var n := StopCallsAsWritten(old(counters), thresholds, loud);
              && (n == 0 ==> outcome == Returned(true) && Recording() && effects == old(effects))
              && (n == 1 ==> outcome == Returned(true) && dispatcher == None
                               && effects == old(effects) + [DispatcherStopped, OscilloscopeStopped, EncodingStarted, EncodingResult(rawOutputFile, encoded)])
              && (n == 2 ==> outcome == ThrewNullPointer && dispatcher == None
                               && effects == old(effects) + [DispatcherStopped, OscilloscopeStopped, EncodingStarted, EncodingResult(rawOutputFile, encoded)])
    {
      CountsNext(frames, loud);
      var c := counters;
      frames := frames + [loud];
      var stopped := false;
      if loud {
        counters := counters.(silent := 0);
      } else {
        counters := counters.(silent := counters.silent + 1);
        if counters.silent >= thresholds.silenceTimeout && counters.total >= thresholds.durationMinimum {
          var threw := StopRecording(encoded);
          stopped := true;
        }
      }
      counters := counters.(total := counters.total + 1);
      if counters.total >= thresholds.durationMaximum {
        var threw := StopRecording(encoded);
        if threw {
          return ThrewNullPointer;
        }
      }
      return Returned(true);
    }
  }
}
