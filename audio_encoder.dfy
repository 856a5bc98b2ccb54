/**
 * The answer app's AAC encoder front end (AudioEncoder): a single-threaded
 * task queue that feeds captured frames to a MediaCodec and moves the codec's
 * output into a MediaMuxer, closing both when the recording is finalised.
 *
 * The codec's output side is a script: the results its dequeueOutputBuffer
 * calls will return, in order. An exhausted script means the codec has nothing
 * more to give, so it answers TRY_AGAIN_LATER for ever. The muxer is the log
 * of the calls made on it, checked against MediaMuxer's protocol by Replay.
 */
module AudioEncoding {
  import opened Common

  const TOTAL_NUM_TRACKS: int := 1

  /** One result of MediaCodec.dequeueOutputBuffer together with the BufferInfo it fills in. */
  datatype OutputEvent =
    | TryAgainLater
    | OutputBuffersChanged
    | OutputFormatChanged
    | OtherStatus(code: int)
    | Buffer(index: nat, isNull: bool, size: nat, codecConfig: bool, endOfStream: bool)

  datatype MuxerOp = AddTrack | StartMuxer | WriteSample(track: int, size: nat) | StopMuxer | ReleaseMuxer

  datatype MuxerPhase = Configuring(tracks: nat) | Started(tracks: nat) | Stopped | Released

  /** MediaMuxer's state machine: None is an IllegalStateException. */
  function MuxerStep(p: MuxerPhase, op: MuxerOp): Option<MuxerPhase>
  {
    match op
    case AddTrack => if p.Configuring? then Some(Configuring(p.tracks + 1)) else None
    case StartMuxer => if p.Configuring? && p.tracks >= 1 then Some(Started(p.tracks)) else None
    case WriteSample(t, size) => if p.Started? && 0 <= t < p.tracks && size > 0 then Some(p) else None
    case StopMuxer => if p.Started? then Some(Stopped) else None
    case ReleaseMuxer => if p != Released then Some(Released) else None
  }

  /** The phase a fresh muxer reaches after the logged calls; None if one of them broke the protocol. */
  function Replay(ops: seq<MuxerOp>): Option<MuxerPhase>
  {
    if ops == [] then Some(Configuring(0))
    else match Replay(ops[..|ops| - 1])
      case None => None
      case Some(p) => MuxerStep(p, ops[|ops| - 1])
  }

  lemma ReplayAppend(ops: seq<MuxerOp>, op: MuxerOp)
    ensures Replay(ops + [op]) == if Replay(ops).Some? then MuxerStep(Replay(ops).value, op) else None
  {
    assert (ops + [op])[..|ops|] == ops;
  }

  function CountAddTrack(ops: seq<MuxerOp>): nat
  {
    if ops == [] then 0 else CountAddTrack(ops[..|ops| - 1]) + (if ops[|ops| - 1] == AddTrack then 1 else 0)
  }

  /** The sample sizes written to the muxer, in order. */
  function Writes(ops: seq<MuxerOp>): seq<nat>
  {
    if ops == [] then [] else Writes(ops[..|ops| - 1]) + (if ops[|ops| - 1].WriteSample? then [ops[|ops| - 1].size] else [])
  }

  lemma WritesAppend(ops: seq<MuxerOp>, op: MuxerOp)
    ensures Writes(ops + [op]) == Writes(ops) + (if op.WriteSample? then [op.size] else [])
    ensures CountAddTrack(ops + [op]) == CountAddTrack(ops) + (if op == AddTrack then 1 else 0)
  {
    assert (ops + [op])[..|ops|] == ops;
  }

  /** An input buffer queued to the codec. */
  datatype QueuedInput = QueuedInput(size: nat, ptsUs: int, endOfStream: bool)

  /**
   * What is seen of the MediaCodec: the results its dequeueOutputBuffer calls
   * will return, the input buffers queued to it, the output buffers released
   * back to it, and whether it has been stopped and released.
   */
  datatype Codec = Codec(output: seq<OutputEvent>, inputs: seq<QueuedInput>, releasedOutputs: seq<nat>, released: bool)

  /** The MediaMuxer: the calls made on it, and whether mMuxer has been set to null. */
  datatype Muxer = Muxer(ops: seq<MuxerOp>, isNull: bool)

  /** What drainEncoder works on: the codec, the muxer, mMuxerStarted, the static sNumTracksAdded and the track index. */
  datatype DrainState = DrainState(codec: Codec, muxer: Muxer, muxerStarted: bool, tracksAdded: int, trackIndex: int)

  datatype Failure = FormatChangedAfterStart | NullOutputBuffer | MuxerNotStarted | CodecReleased

  /** Completed: returned normally. Threw: an exception left the call. Hung: the loop spins for ever. */
  datatype Outcome = Completed | Threw(failure: Failure) | Hung

  /** The result of one pass of drainEncoder's loop body. */
  datatype StepResult = Continue(next: DrainState) | Stop(last: DrainState, outcome: Outcome)

  function After(r: StepResult): DrainState
  {
    if r.Continue? then r.next else r.last
  }

  /**
   * The loop body for one dequeueOutputBuffer result `e`, already taken off
   * the codec's output. Only the released output buffers change on the codec
   * side; mMuxer is never null here, because closeMuxer runs only after the
   * codec is released and a released codec stops drainEncoder earlier.
   */
  function HandleEvent(s: DrainState, e: OutputEvent, endOfStream: bool): (r: StepResult)
    ensures After(r).codec.output == s.codec.output && After(r).codec.inputs == s.codec.inputs
    ensures After(r).codec.released == s.codec.released && After(r).muxer.isNull == s.muxer.isNull
    ensures r.Stop? ==> r.outcome != Hung
  {
    match e
    case TryAgainLater => if endOfStream then Continue(s) else Stop(s, Completed)
    case OutputBuffersChanged => Continue(s)
    case OtherStatus(_) => Continue(s)
    case OutputFormatChanged =>
      if s.muxerStarted then Stop(s, Threw(FormatChangedAfterStart))
      else
        var added := s.tracksAdded + 1;
        var ops := s.muxer.ops + [AddTrack];
        var s1 := s.(trackIndex := CountAddTrack(s.muxer.ops), tracksAdded := added);
        if added == TOTAL_NUM_TRACKS then Continue(s1.(muxer := s.muxer.(ops := ops + [StartMuxer]), muxerStarted := true))
        else Continue(s1.(muxer := s.muxer.(ops := ops)))
    case Buffer(index, isNull, size, codecConfig, eos) =>
      if isNull then Stop(s, Threw(NullOutputBuffer))
      else
        var size' := if codecConfig then 0 else size;
        if size' != 0 && !s.muxerStarted then Stop(s, Threw(MuxerNotStarted))
        else
          var ops := if size' != 0 then s.muxer.ops + [WriteSample(s.trackIndex, size')] else s.muxer.ops;
          var s2 := s.(muxer := s.muxer.(ops := ops), codec := s.codec.(releasedOutputs := s.codec.releasedOutputs + [index]));
          if eos then Stop(s2, Completed) else Continue(s2)
  }

  /** The codec after its next output result has been dequeued. */
  function Dequeue(s: DrainState): DrainState
    requires s.codec.output != []
  {
    s.(codec := s.codec.(output := s.codec.output[1..]))
  }

  /** drainEncoder after getOutputBuffers: the while(true) loop over dequeueOutputBuffer results. */
  function Drain(s: DrainState, endOfStream: bool): (r: (DrainState, Outcome))
    ensures |r.0.codec.output| <= |s.codec.output|
    ensures r.0.codec.inputs == s.codec.inputs && r.0.codec.released == s.codec.released
    ensures r.0.muxer.isNull == s.muxer.isNull
    decreases |s.codec.output|
  {
    if s.codec.output == [] then (s, if endOfStream then Hung else Completed)
    else
      match HandleEvent(Dequeue(s), s.codec.output[0], endOfStream)
      case Continue(next) => Drain(next, endOfStream)
      case Stop(last, outcome) => (last, outcome)
  }

  /**
   * A drain takes a prefix of the codec's output and leaves the rest; unless
   * it hangs, it takes at least one result, or there was none to take and it
   * was not waiting for END_OF_STREAM.
   */
  lemma {:induction false} DrainTakesPrefix(s: DrainState, endOfStream: bool)
    ensures var (r, o) := Drain(s, endOfStream);
            && r.codec.output == s.codec.output[|s.codec.output| - |r.codec.output|..]
            && (o != Hung ==> |r.codec.output| < |s.codec.output| || (s.codec.output == [] && !endOfStream))
    decreases |s.codec.output|
  {
    if s.codec.output != [] {
      match HandleEvent(Dequeue(s), s.codec.output[0], endOfStream)
      case Continue(next) =>
        DrainTakesPrefix(next, endOfStream);
      case Stop(_, _) =>
    }
  }

  function WithInputs(s: DrainState, inputs: seq<QueuedInput>): DrainState
  {
    s.(codec := s.codec.(inputs := inputs))
  }

  /** What is queued on the codec's input side does not change how its output is drained. */
  lemma {:induction false} DrainIgnoresInputs(s: DrainState, inputs: seq<QueuedInput>, endOfStream: bool)
    ensures Drain(WithInputs(s, inputs), endOfStream) == (WithInputs(Drain(s, endOfStream).0, inputs), Drain(s, endOfStream).1)
    decreases |s.codec.output|
  {
    if s.codec.output != [] {
      var e := s.codec.output[0];
      assert Dequeue(WithInputs(s, inputs)) == WithInputs(Dequeue(s), inputs);
      match HandleEvent(Dequeue(s), e, endOfStream)
      case Continue(next) =>
        assert HandleEvent(WithInputs(Dequeue(s), inputs), e, endOfStream) == Continue(WithInputs(next, inputs));
        DrainIgnoresInputs(next, inputs, endOfStream);
      case Stop(last, o) =>
        assert HandleEvent(WithInputs(Dequeue(s), inputs), e, endOfStream) == Stop(WithInputs(last, inputs), o);
    }
  }

  /** The muxer is configuring with no track and not started, or started with its one track: nothing else is reachable. */
  ghost predicate MuxerInv(s: DrainState)
  {
    || (Replay(s.muxer.ops) == Some(Configuring(0)) && !s.muxerStarted && s.tracksAdded == 0 && CountAddTrack(s.muxer.ops) == 0)
    || (Replay(s.muxer.ops) == Some(Started(1)) && s.muxerStarted && s.tracksAdded == 1 && s.trackIndex == 0)
  }

  /**
   * One event keeps the muxer within its protocol: the track is added before
   * the muxer starts, the muxer starts as soon as TOTAL_NUM_TRACKS tracks are
   * added, nothing is written before it starts, and a format change after the
   * start throws instead of adding a track.
   */
  lemma HandleEventKeepsMuxerProtocol(s: DrainState, e: OutputEvent, endOfStream: bool)
    requires MuxerInv(s)
    ensures MuxerInv(After(HandleEvent(s, e, endOfStream)))
    ensures e == OutputFormatChanged && s.muxerStarted ==> HandleEvent(s, e, endOfStream) == Stop(s, Threw(FormatChangedAfterStart))
    ensures e == OutputFormatChanged && !s.muxerStarted ==> HandleEvent(s, e, endOfStream).next.muxerStarted
  {
    match e
    case OutputFormatChanged =>
      if !s.muxerStarted {
        FormatChangeStartsMuxer(s, endOfStream);
      }
    case Buffer(index, isNull, size, codecConfig, eos) =>
      BufferKeepsMuxerProtocol(s, e, endOfStream);
    case _ =>
  }

  /** The first format change adds the one track and starts the muxer. */
  lemma FormatChangeStartsMuxer(s: DrainState, endOfStream: bool)
    requires MuxerInv(s) && !s.muxerStarted
    ensures var r := HandleEvent(s, OutputFormatChanged, endOfStream);
            r.Continue? && r.next.muxerStarted && MuxerInv(r.next)
  {
    var ops := s.muxer.ops;
    ReplayAppend(ops, AddTrack);
    WritesAppend(ops, AddTrack);
    ReplayAppend(ops + [AddTrack], StartMuxer);
    assert ops + [AddTrack] + [StartMuxer] == ops + [AddTrack, StartMuxer];
  }

  /** An output buffer writes to the started muxer's one track, or writes nothing. */
  lemma BufferKeepsMuxerProtocol(s: DrainState, e: OutputEvent, endOfStream: bool)
    requires MuxerInv(s) && e.Buffer?
    ensures MuxerInv(After(HandleEvent(s, e, endOfStream)))
  {
    var size' := if e.codecConfig then 0 else e.size;
    ReplayAppend(s.muxer.ops, WriteSample(s.trackIndex, size'));
  }

  /** drainEncoder keeps the muxer within its protocol, whatever the codec produces. */
  lemma {:induction false} DrainKeepsMuxerProtocol(s: DrainState, endOfStream: bool)
    requires MuxerInv(s)
    ensures MuxerInv(Drain(s, endOfStream).0)
    decreases |s.codec.output|
  {
    if s.codec.output != [] {
      HandleEventKeepsMuxerProtocol(Dequeue(s), s.codec.output[0], endOfStream);
      match HandleEvent(Dequeue(s), s.codec.output[0], endOfStream)
      case Continue(next) => DrainKeepsMuxerProtocol(next, endOfStream);
      case Stop(_, _) =>
    }
  }

  /** Indices of the data buffers among the events: the buffers dequeued by the loop. */
  function DequeuedBuffers(events: seq<OutputEvent>): seq<nat>
  {
    if events == [] then []
    else (if events[0].Buffer? then [events[0].index] else []) + DequeuedBuffers(events[1..])
  }

  /** Sizes of the buffers that carry media data: not null, not codec config, not empty. */
  function MediaSizes(events: seq<OutputEvent>): seq<nat>
  {
    if events == [] then []
    else (if events[0].Buffer? && !events[0].isNull && !events[0].codecConfig && events[0].size != 0
          then [events[0].size] else []) + MediaSizes(events[1..])
  }

  predicate IsEosBuffer(e: OutputEvent) { e.Buffer? && !e.isNull && e.endOfStream }

  lemma SingleAccounting(e: OutputEvent)
    ensures DequeuedBuffers([e]) == if e.Buffer? then [e.index] else []
    ensures MediaSizes([e]) == if e.Buffer? && !e.isNull && !e.codecConfig && e.size != 0 then [e.size] else []
  {
    assert [e][1..] == [];
  }

  /** What one event does to the two logs, and when the loop goes on after it. */
  lemma HandleEventAccounting(s: DrainState, e: OutputEvent, endOfStream: bool)
    ensures var r := HandleEvent(s, e, endOfStream);
            (r.Continue? || r.outcome == Completed) ==>
              && After(r).codec.releasedOutputs == s.codec.releasedOutputs + DequeuedBuffers([e])
              && Writes(After(r).muxer.ops) == Writes(s.muxer.ops) + MediaSizes([e])
              && (r.Continue? <==> GoesOnAfter(e, endOfStream))
  {
    SingleAccounting(e);
    match e
    case OutputFormatChanged =>
      if !s.muxerStarted {
        WritesAppend(s.muxer.ops, AddTrack);
        WritesAppend(s.muxer.ops + [AddTrack], StartMuxer);
      }
    case Buffer(index, isNull, size, codecConfig, eos) =>
      var size' := if codecConfig then 0 else size;
      if !isNull && size' != 0 {
        WritesAppend(s.muxer.ops, WriteSample(s.trackIndex, size'));
      }
    case _ =>
  }

  /** The loop goes on after a result that is not an END_OF_STREAM buffer, and after TRY_AGAIN_LATER only while waiting for END_OF_STREAM. */
  predicate GoesOnAfter(e: OutputEvent, endOfStream: bool)
  {
    !IsEosBuffer(e) && (endOfStream || e != TryAgainLater)
  }

  /**
   * The last result of a normal return: with endOfStream it is the
   * END_OF_STREAM buffer; without it, it is that buffer or TRY_AGAIN_LATER,
   * unless the codec ran out of output.
   */
  predicate EndsLoop(e: OutputEvent, endOfStream: bool, exhausted: bool)
  {
    && (endOfStream ==> IsEosBuffer(e))
    && (!endOfStream && !exhausted ==> e == TryAgainLater || IsEosBuffer(e))
  }

  /**
   * The consumed results obey the loop's stopping rule: the loop went on after
   * every result but the last, and the last one ends the loop. Nothing was
   * consumed only when the codec had nothing to give and the loop was not
   * waiting for END_OF_STREAM.
   */
  ghost predicate StopsAtRightPlace(consumed: seq<OutputEvent>, endOfStream: bool, exhausted: bool)
  {
    if consumed == [] then !endOfStream && exhausted
    else if |consumed| == 1 then EndsLoop(consumed[0], endOfStream, exhausted)
    else GoesOnAfter(consumed[0], endOfStream) && StopsAtRightPlace(consumed[1..], endOfStream, exhausted)
  }

  lemma StopsAtRightPlaceCons(e: OutputEvent, rest: seq<OutputEvent>, endOfStream: bool, exhausted: bool)
    requires GoesOnAfter(e, endOfStream)
    requires StopsAtRightPlace(rest, endOfStream, exhausted)
    requires rest == [] ==> exhausted
    ensures StopsAtRightPlace([e] + rest, endOfStream, exhausted)
  {
    assert ([e] + rest)[1..] == rest;
  }

  lemma AccountingCons(e: OutputEvent, rest: seq<OutputEvent>)
    ensures DequeuedBuffers([e] + rest) == DequeuedBuffers([e]) + DequeuedBuffers(rest)
    ensures MediaSizes([e] + rest) == MediaSizes([e]) + MediaSizes(rest)
  {
    assert ([e] + rest)[1..] == rest;
    assert [e][1..] == [];
  }

  /** The results a drain took off the codec. */
  function Consumed(s: DrainState, r: DrainState): seq<OutputEvent>
    requires |r.codec.output| <= |s.codec.output|
  {
    s.codec.output[..|s.codec.output| - |r.codec.output|]
  }

  /** Between s and r the logs grew by exactly what the consumed results call for. */
  ghost predicate AccountedFor(s: DrainState, r: DrainState, endOfStream: bool)
    requires |r.codec.output| <= |s.codec.output|
  {
    && r.codec.releasedOutputs == s.codec.releasedOutputs + DequeuedBuffers(Consumed(s, r))
    && Writes(r.muxer.ops) == Writes(s.muxer.ops) + MediaSizes(Consumed(s, r))
    && StopsAtRightPlace(Consumed(s, r), endOfStream, r.codec.output == [])
  }

  /** A result the loop goes on after, followed by an accounted-for rest, is accounted for. */
  lemma AccountedForCons(s: DrainState, next: DrainState, r: DrainState, endOfStream: bool)
    requires s.codec.output != [] && next.codec.output == s.codec.output[1..]
    requires var e := s.codec.output[0];
             && next.codec.releasedOutputs == s.codec.releasedOutputs + DequeuedBuffers([e])
             && Writes(next.muxer.ops) == Writes(s.muxer.ops) + MediaSizes([e])
             && GoesOnAfter(e, endOfStream)
    requires |r.codec.output| <= |next.codec.output|
    requires AccountedFor(next, r, endOfStream)
    requires |r.codec.output| == |next.codec.output| ==> r.codec.output == []
    ensures AccountedFor(s, r, endOfStream)
  {
    var e := s.codec.output[0];
    var rest := Consumed(next, r);
    assert Consumed(s, r) == [e] + rest;
    AccountingCons(e, rest);
    assert r.codec.releasedOutputs == s.codec.releasedOutputs + DequeuedBuffers([e] + rest);
    assert Writes(r.muxer.ops) == Writes(s.muxer.ops) + MediaSizes([e] + rest);
    StopsAtRightPlaceCons(e, rest, endOfStream, r.codec.output == []);
  }

  /**
   * A drain that returns normally has released every buffer it dequeued,
   * exactly once and in order, and written exactly the media buffers (never
   * codec config data). It stops at the first END_OF_STREAM buffer; without
   * endOfStream it also stops at the first TRY_AGAIN_LATER, while with it the
   * only way out is the END_OF_STREAM buffer.
   */
  lemma {:induction false} DrainAccounting(s: DrainState, endOfStream: bool)
    ensures Drain(s, endOfStream).1 == Completed ==> AccountedFor(s, Drain(s, endOfStream).0, endOfStream)
    decreases |s.codec.output|
  {
    var r := Drain(s, endOfStream).0;
    if Drain(s, endOfStream).1 != Completed {
      return;
    }
    if s.codec.output == [] {
      assert Consumed(s, r) == [];
      return;
    }
    var e := s.codec.output[0];
    match HandleEvent(Dequeue(s), e, endOfStream)
    case Stop(last, _) =>
      HandleEventAccounting(Dequeue(s), e, endOfStream);
      assert Consumed(s, r) == [e];
    case Continue(next) =>
      HandleEventAccounting(Dequeue(s), e, endOfStream);
      DrainAccounting(next, endOfStream);
      DrainTakesPrefix(next, endOfStream);
      AccountedForCons(s, next, r, endOfStream);
  }

  /** A frame as the capture thread hands it over: the byte[] buffer's identity and its length. */
  datatype Input = Input(buffer: nat, length: nat)

  /** The poller set by setAudioSoftwarePoller, if any, and the buffers handed back to it. */
  datatype Poller = Poller(attached: bool, recycled: seq<nat>)

  /** The completion callback, if one is set, and how often onEncodingCompleted was called. */
  datatype Callback = Callback(registered: bool, calls: nat)

  /** The encoder's own flags and statistics, and the objects it reports to. */
  datatype Control = Control(
    eosReceived: bool,
    eosSent: bool,
    stopReceived: bool,
    audioStartTime: int,
    bytesReceived: int,
    queueLength: int,
    shutdown: bool,
    poller: Poller,
    callback: Callback)

  datatype Enc = Enc(d: DrainState, c: Control)

  /** The fields of a new AudioEncoder, before prepare(). */
  function Initial(): Enc
  {
    Enc(DrainState(Codec([], [], [], false), Muxer([], false), false, 0, 0),
        Control(false, false, false, 0, 0, 0, false, Poller(false, []), Callback(false, 0)))
  }

  function EosQueued(inputs: seq<QueuedInput>): bool
  {
    exists i :: 0 <= i < |inputs| && inputs[i].endOfStream
  }

  /** drainEncoder as a whole: getOutputBuffers on a released codec throws before the loop. */
  function DrainEncoderState(e: Enc, endOfStream: bool): (r: (Enc, Outcome))
    ensures r.0.c == e.c && r.0.d.codec.inputs == e.d.codec.inputs && r.0.d.codec.released == e.d.codec.released
  {
    if e.d.codec.released then (e, Threw(CodecReleased))
    else var (d, o) := Drain(e.d, endOfStream); (Enc(d, e.c), o)
  }

  /** prepare(): the flags and the static counters are reset and a new codec and muxer are created. */
  function PrepareState(e: Enc, script: seq<OutputEvent>): Enc
  {
    Enc(DrainState(Codec(script, [], [], false), Muxer([], false), e.d.muxerStarted, 0, e.d.trackIndex),
        e.c.(bytesReceived := 0, eosReceived := false, eosSent := false, stopReceived := false))
  }

  /** _stop(), run for a FINALIZE_ENCODER task. */
  function StopReceived(e: Enc): Enc
  {
    e.(c := e.c.(stopReceived := true, eosReceived := true))
  }

  /**
   * closeEncoderAndMuxer: the final drain is outside the try, so its exception
   * escapes; then the codec is stopped and released and closeMuxer runs, where
   * MediaMuxer.stop on a null or never started muxer throws and the exception
   * is caught, skipping the release.
   */
  function CloseEncoderAndMuxerState(e: Enc): (r: (Enc, Outcome))
    ensures r.0.c == e.c && r.0.d.codec.inputs == e.d.codec.inputs
  {
    var (e1, o) := DrainEncoderState(e, true);
    if o != Completed then (e1, o)
    else
      var d1 := e1.d.(codec := e1.d.codec.(released := true));
      var p := Replay(d1.muxer.ops);
      if d1.muxer.isNull || !(p.Some? && p.value.Started?) then (Enc(d1, e1.c), Completed)
      else (Enc(d1.(muxer := Muxer(d1.muxer.ops + [StopMuxer, ReleaseMuxer], true), muxerStarted := false), e1.c), Completed)
  }

  /** The end of the encoding: the service is shut down and the completion callback, if set, is called. */
  function FinishState(c: Control): Control
  {
    c.(shutdown := true, callback := if c.callback.registered then c.callback.(calls := c.callback.calls + 1) else c.callback)
  }

  /** closeEncoderAndMuxer, then mEosSentToAudioEncoder is set and, once stop was received, the encoder finishes. */
  function SendEndOfStreamState(e: Enc): (r: (Enc, Outcome))
    ensures r.0.d.codec.inputs == e.d.codec.inputs
    ensures r.0.c.audioStartTime == e.c.audioStartTime && r.0.c.bytesReceived == e.c.bytesReceived
  {
    var (e1, o) := CloseEncoderAndMuxerState(e);
    if o != Completed then (e1, o)
    else
      var c2 := e1.c.(eosSent := true);
      (e1.(c := if c2.stopReceived then FinishState(c2) else c2), Completed)
  }

  /**
   * The try block of _offerAudioEncoder. The frame is handed back to the
   * poller before it is queued. Queueing more input once END_OF_STREAM is
   * queued throws, and the exception is caught.
   */
  function QueueInputState(e: Enc, input: Input, ptsUs: int): (r: (Enc, Outcome))
    ensures r.0.c.audioStartTime == e.c.audioStartTime && r.0.c.bytesReceived == e.c.bytesReceived
  {
    var e1 := if e.c.poller.attached then e.(c := e.c.(poller := e.c.poller.(recycled := e.c.poller.recycled + [input.buffer]))) else e;
    var queued := e1.d.(codec := e1.d.codec.(inputs := e1.d.codec.inputs + [QueuedInput(input.length, ptsUs, e1.c.eosReceived)]));
    if EosQueued(e1.d.codec.inputs) then (e1, Completed)
    else if !e1.c.eosReceived then (Enc(queued, e1.c), Completed)
    else
      var (e3, o) := SendEndOfStreamState(Enc(queued, e1.c));
      // inside the try block: only a hung drain keeps the exception from being caught
      (e3, if o == Hung then Hung else Completed)
  }

  /** _offerAudioEncoder for one frame. */
  function OfferFrameState(e: Enc, input: Input, ns: int): (Enc, Outcome)
  {
    var start := if e.c.bytesReceived == 0 then ns else e.c.audioStartTime;
    var e1 := e.(c := e.c.(audioStartTime := start, bytesReceived := e.c.bytesReceived + input.length));
    if e1.c.eosSent && e1.c.stopReceived then
      // mStopReceived holds here, so the prepare() branch is never taken
      if !e1.c.eosReceived then (e1, Completed) else SendEndOfStreamState(e1)
    else DrainThenQueueState(e1, input, JavaDiv(ns - start, 1000))
  }

  /** The rest of _offerAudioEncoder before END_OF_STREAM was sent: drain what the codec has produced, then queue the frame. */
  function DrainThenQueueState(e: Enc, input: Input, ptsUs: int): (Enc, Outcome)
  {
    var (e2, o) := DrainEncoderState(e, false);
    if o != Completed then (e2, o)
    else QueueInputState(e2, input, ptsUs)
  }

  datatype TaskKind = EncodeFrame | FinalizeEncoder

  /** EncoderTask.run on a task that is still initialised, including the queue-length bookkeeping. */
  function RunTaskBody(e: Enc, kind: TaskKind, audio: Option<Input>, ptsNs: int): (Enc, Outcome)
  {
    var (e1, o) :=
      match kind
      case EncodeFrame => if audio.Some? then OfferFrameState(e, audio.value, ptsNs) else (e, Completed)
      case FinalizeEncoder => (StopReceived(e), Completed);
    if o == Completed then (e1.(c := e1.c.(queueLength := e1.c.queueLength - 1)), o) else (e1, o)
  }

  /** What the single encoding thread runs, one task after the other. */
  datatype Task = Frame(input: Input, ptsNs: int) | Finalize

  function RunTask(e: Enc, t: Task): (Enc, Outcome)
  {
    match t
    case Frame(input, ns) => RunTaskBody(e, EncodeFrame, Some(input), ns)
    case Finalize => RunTaskBody(e, FinalizeEncoder, None, 0)
  }

  /** The tasks run in order; an exception ends only its own task, a hung drain blocks the thread for good. */
  function RunTasks(e: Enc, ts: seq<Task>): Enc
    decreases |ts|
  {
    if ts == [] then e
    else
      var (e1, o) := RunTask(e, ts[0]);
      if o == Hung then e1 else RunTasks(e1, ts[1..])
  }

  /** What holds of the encoder from prepare() onwards, whatever the codec produces. */
  ghost predicate Good(e: Enc)
  {
    && (!e.d.muxer.isNull ==> MuxerInv(e.d))
    && (e.d.muxer.isNull ==> e.d.codec.released && Replay(e.d.muxer.ops) == Some(Released) && !e.d.muxerStarted)
    && (e.c.stopReceived <==> e.c.eosReceived)
    && (e.c.eosSent ==> e.d.codec.released && e.c.stopReceived)
    && (e.c.shutdown ==> e.c.eosSent)
    && e.c.callback.calls <= 1
    && (e.c.callback.calls == 1 ==> e.c.shutdown)
    && (!e.c.eosSent ==> e.c.callback.calls == 0)
  }

  /** Right after prepare() on a new encoder, Good holds. */
  lemma PrepareIsGood(e: Enc, script: seq<OutputEvent>)
    requires !e.d.muxerStarted && e.c.callback.calls == 0 && !e.c.shutdown
    ensures Good(PrepareState(e, script))
  {
  }

  lemma DrainEncoderKeepsGood(e: Enc, endOfStream: bool)
    requires Good(e)
    ensures Good(DrainEncoderState(e, endOfStream).0)
  {
    if !e.d.codec.released {
      DrainKeepsMuxerProtocol(e.d, endOfStream);
    }
  }

  lemma CloseKeepsGood(e: Enc)
    requires Good(e) && !e.c.eosSent
    ensures var (r, o) := CloseEncoderAndMuxerState(e);
            && Good(r)
            && (o == Completed ==> r.d.codec.released)
  {
    DrainEncoderKeepsGood(e, true);
    var (e1, o) := DrainEncoderState(e, true);
    if o == Completed && !e1.d.muxer.isNull {
      var ops := e1.d.muxer.ops;
      if Replay(ops).Some? && Replay(ops).value.Started? {
        ReplayAppend(ops, StopMuxer);
        ReplayAppend(ops + [StopMuxer], ReleaseMuxer);
        assert ops + [StopMuxer, ReleaseMuxer] == ops + [StopMuxer] + [ReleaseMuxer];
      }
    }
  }

  lemma SendEndOfStreamKeepsGood(e: Enc)
    requires Good(e) && !e.c.eosSent && e.c.stopReceived
    ensures Good(SendEndOfStreamState(e).0)
  {
    CloseKeepsGood(e);
  }

  lemma QueueInputKeepsGood(e: Enc, input: Input, ptsUs: int)
    requires Good(e) && !e.c.eosSent
    ensures Good(QueueInputState(e, input, ptsUs).0)
  {
    var e1 := if e.c.poller.attached then e.(c := e.c.(poller := e.c.poller.(recycled := e.c.poller.recycled + [input.buffer]))) else e;
    if !EosQueued(e1.d.codec.inputs) && e1.c.eosReceived {
      var queued := e1.d.(codec := e1.d.codec.(inputs := e1.d.codec.inputs + [QueuedInput(input.length, ptsUs, true)]));
      SendEndOfStreamKeepsGood(Enc(queued, e1.c));
    }
  }

  lemma OfferFrameKeepsGood(e: Enc, input: Input, ns: int)
    requires Good(e)
    ensures Good(OfferFrameState(e, input, ns).0)
  {
    var start := if e.c.bytesReceived == 0 then ns else e.c.audioStartTime;
    var e1 := e.(c := e.c.(audioStartTime := start, bytesReceived := e.c.bytesReceived + input.length));
    StatisticsKeepGood(e, start, e.c.bytesReceived + input.length);
    if e1.c.eosSent && e1.c.stopReceived {
      LateFrameKeepsGood(e1);
      assert OfferFrameState(e, input, ns).0 == e1;
    } else {
      DrainThenQueueKeepsGood(e1, input, JavaDiv(ns - start, 1000));
      assert OfferFrameState(e, input, ns) == DrainThenQueueState(e1, input, JavaDiv(ns - start, 1000));
    }
  }

  /** Good does not depend on the byte count and the start time. */
  lemma StatisticsKeepGood(e: Enc, start: int, bytes: int)
    requires Good(e)
    ensures Good(e.(c := e.c.(audioStartTime := start, bytesReceived := bytes)))
  {
  }

  /** After END_OF_STREAM was sent the codec is released, so the final drain throws and nothing changes. */
  lemma LateFrameKeepsGood(e: Enc)
    requires Good(e) && e.c.eosSent
    ensures !e.c.eosReceived || SendEndOfStreamState(e) == (e, Threw(CodecReleased))
  {
  }

  lemma DrainThenQueueKeepsGood(e: Enc, input: Input, ptsUs: int)
    requires Good(e) && !e.c.eosSent
    ensures Good(DrainThenQueueState(e, input, ptsUs).0)
  {
    DrainEncoderKeepsGood(e, false);
    var (e2, o) := DrainEncoderState(e, false);
    if o == Completed {
      QueueInputKeepsGood(e2, input, ptsUs);
    }
  }

  /** One task keeps Good. */
  lemma RunTaskKeepsGood(e: Enc, t: Task)
    requires Good(e)
    ensures Good(RunTask(e, t).0)
  {
    match t
    case Finalize =>
    case Frame(input, ns) =>
      OfferFrameKeepsGood(e, input, ns);
  }

  /**
   * From prepare() on, whatever the codec does and whatever tasks arrive:
   * the muxer only sees legal calls, END_OF_STREAM is only sent after a stop
   * request and with the codec released, and the completion callback fires at
   * most once, after the encoding service was shut down.
   */
  lemma {:induction false} RunTasksKeepsGood(e: Enc, ts: seq<Task>)
    requires Good(e)
    ensures var r := RunTasks(e, ts);
            && Good(r)
            && Replay(r.d.muxer.ops).Some?
            && r.c.callback.calls <= 1
            && (r.c.callback.calls == 1 ==> r.c.shutdown && r.c.eosSent && r.d.codec.released)
    decreases |ts|
  {
    if ts != [] {
      RunTaskKeepsGood(e, ts[0]);
      var (e1, o) := RunTask(e, ts[0]);
      if o != Hung {
        RunTasksKeepsGood(e1, ts[1..]);
      }
    }
  }

  /**
   * Once END_OF_STREAM has been sent, a later frame returns before the input
   * stage: nothing is queued, no buffer is recycled and the callback does not
   * fire again.
   */
  lemma FrameAfterEosIsIgnored(e: Enc, input: Input, ns: int)
    requires Good(e) && e.c.eosSent
    ensures var (r, o) := OfferFrameState(e, input, ns);
            && r.d == e.d && r.c.poller == e.c.poller && r.c.callback == e.c.callback
            && o == Threw(CodecReleased)
  {
  }

  /**
   * The first frame after a stop request ends the encoding: if both drains
   * return normally, the frame is queued with END_OF_STREAM, the codec is
   * released, the muxer (started by the codec's format) is stopped and
   * released, the service is shut down and the callback fires once.
   */
  lemma FinalizeThenFrame(e: Enc, input: Input, ns: int)
    requires Good(e) && !e.c.eosSent && !e.d.codec.released && !e.d.muxer.isNull
    requires !EosQueued(e.d.codec.inputs)
    requires var d1 := Drain(e.d, false);
             d1.1 == Completed && Drain(d1.0, true).1 == Completed && Drain(d1.0, true).0.muxerStarted
    ensures var (r, o) := OfferFrameState(StopReceived(e), input, ns);
            && o == Completed
            && r.c.eosSent && r.d.codec.released && r.c.shutdown && r.d.muxer.isNull
            && |r.d.codec.inputs| == |e.d.codec.inputs| + 1
            && r.d.codec.inputs[..|e.d.codec.inputs|] == e.d.codec.inputs
            && r.d.codec.inputs[|e.d.codec.inputs|].endOfStream
            && r.c.callback.calls == e.c.callback.calls + (if e.c.callback.registered then 1 else 0)
            && r.d.muxer.ops[|r.d.muxer.ops| - 2..] == [StopMuxer, ReleaseMuxer]
  {
    var s := StopReceived(e);
    var start := if s.c.bytesReceived == 0 then ns else s.c.audioStartTime;
    var e1 := s.(c := s.c.(audioStartTime := start, bytesReceived := s.c.bytesReceived + input.length));
    var d1 := Drain(e.d, false).0;
    assert OfferFrameState(s, input, ns) == DrainThenQueueState(e1, input, JavaDiv(ns - start, 1000));
    assert DrainEncoderState(e1, false) == (Enc(d1, e1.c), Completed);
    DrainKeepsMuxerProtocol(e.d, false);
    DrainKeepsMuxerProtocol(d1, true);
    var e2 := Enc(d1, e1.c);
    var e3 := if e2.c.poller.attached then e2.(c := e2.c.(poller := e2.c.poller.(recycled := e2.c.poller.recycled + [input.buffer]))) else e2;
    var inputs := e.d.codec.inputs + [QueuedInput(input.length, JavaDiv(ns - start, 1000), true)];
    DrainIgnoresInputs(d1, inputs, true);
    SendEndOfStreamFinishes(Enc(WithInputs(d1, inputs), e3.c));
    assert QueueInputState(e2, input, JavaDiv(ns - start, 1000)).0 == SendEndOfStreamState(Enc(WithInputs(d1, inputs), e3.c)).0;
  }

  /**
   * sendEndOfStream after a stop request, when the final drain returns
   * normally with the muxer started: the codec and the muxer are released and
   * the encoder finishes.
   */
  lemma SendEndOfStreamFinishes(e: Enc)
    requires !e.d.codec.released && !e.d.muxer.isNull && e.c.stopReceived
    requires Drain(e.d, true).1 == Completed && Drain(e.d, true).0.muxerStarted && MuxerInv(Drain(e.d, true).0)
    ensures var (r, o) := SendEndOfStreamState(e);
            && o == Completed
            && r.c.eosSent && r.d.codec.released && r.c.shutdown && r.d.muxer.isNull
            && r.d.codec.inputs == e.d.codec.inputs
            && r.c.callback.calls == e.c.callback.calls + (if e.c.callback.registered then 1 else 0)
            && r.d.muxer.ops[|r.d.muxer.ops| - 2..] == [StopMuxer, ReleaseMuxer]
  {
    var ops := Drain(e.d, true).0.muxer.ops;
    assert (ops + [StopMuxer, ReleaseMuxer])[|ops|..] == [StopMuxer, ReleaseMuxer];
  }

  /**
   * Presentation times count from the first frame after prepare(): while
   * bytes have been received the start time stays put, and a queued frame
   * carries (ns - start) / 1000 microseconds, truncated as Java does.
   */
  lemma PresentationTime(e: Enc, input: Input, ns: int)
    requires !e.c.eosSent && !e.d.codec.released && !EosQueued(e.d.codec.inputs)
    ensures var (r, o) := OfferFrameState(e, input, ns);
            var start := if e.c.bytesReceived == 0 then ns else e.c.audioStartTime;
            && r.c.audioStartTime == start
            && r.c.bytesReceived == e.c.bytesReceived + input.length
            && (Drain(e.d, false).1 == Completed ==>
                  r.d.codec.inputs == e.d.codec.inputs + [QueuedInput(input.length, JavaDiv(ns - start, 1000), e.c.eosReceived)])
  {
    var start := if e.c.bytesReceived == 0 then ns else e.c.audioStartTime;
    var e1 := e.(c := e.c.(audioStartTime := start, bytesReceived := e.c.bytesReceived + input.length));
    var (e2, o) := DrainEncoderState(e1, false);
    if o == Completed {
      QueueInputAppends(e2, input, JavaDiv(ns - start, 1000));
    }
  }

  /** Before END_OF_STREAM is queued, the try block queues exactly the one frame, flagged END_OF_STREAM once a stop request arrived. */
  lemma QueueInputAppends(e: Enc, input: Input, ptsUs: int)
    requires !EosQueued(e.d.codec.inputs)
    ensures QueueInputState(e, input, ptsUs).0.d.codec.inputs == e.d.codec.inputs + [QueuedInput(input.length, ptsUs, e.c.eosReceived)]
  {
  }

  /** A task of the single-threaded executor; mIsInitialized guards against running the body twice. */
  class EncoderTask {
    var initialized: bool
    const kind: TaskKind
    var audioData: Option<Input>
    const ptsNs: int

    constructor Frame(input: Input, pts: int)
      ensures initialized && kind == EncodeFrame && audioData == Some(input) && ptsNs == pts
    {
      initialized := true;
      kind := EncodeFrame;
      audioData := Some(input);
      ptsNs := pts;
    }

    constructor Finalize()
      ensures initialized && kind == FinalizeEncoder && audioData == None
    {
      initialized := true;
      kind := FinalizeEncoder;
      audioData := None;
      ptsNs := 0;
    }
  }

  /** The single-thread executor: whether it is shut down, and the tasks submitted and not yet run. */
  datatype Service = Service(shutdown: bool, queue: seq<EncoderTask>)

  class AudioEncoder {
    var eosReceived: bool
    var eosSent: bool
    var stopReceived: bool
    var audioStartTime: int
    /** The static sAudioBytesReceived and sNumTracksAdded. */
    var bytesReceived: int
    var numTracksAdded: int
    var queueLength: int
    var codec: Codec
    var trackIndex: int
    var muxer: Muxer
    var muxerStarted: bool
    var service: Service
    var poller: Poller
    var callback: Callback

    ghost function State(): Enc
      reads this
    {
      Enc(DrainState(codec, muxer, muxerStarted, numTracksAdded, trackIndex),
          Control(eosReceived, eosSent, stopReceived, audioStartTime, bytesReceived, queueLength,
                  service.shutdown, poller, callback))
    }

    /** The fields drainEncoder works on. */
    ghost function DrainView(): DrainState
      reads this`codec, this`muxer, this`muxerStarted, this`numTracksAdded, this`trackIndex
    {
      DrainState(codec, muxer, muxerStarted, numTracksAdded, trackIndex)
    }

    /** new AudioEncoder(...) followed by prepare(), as the recording screen does. */
    constructor (script: seq<OutputEvent>)
      ensures State() == PrepareState(Initial(), script) && Good(State())
      ensures service == Service(false, [])
    {
      eosReceived, eosSent, stopReceived := false, false, false;
      audioStartTime, bytesReceived, numTracksAdded, queueLength := 0, 0, 0, 0;
      codec, trackIndex := Codec(script, [], [], false), 0;
      muxer, muxerStarted := Muxer([], false), false;
      service, poller, callback := Service(false, []), Poller(false, []), Callback(false, 0);
    }

    method SetAudioSoftwarePoller()
      modifies this`poller
      ensures State() == old(State()).(c := old(State()).c.(poller := old(poller).(attached := true)))
    {
      poller := poller.(attached := true);
    }

    method SetEncodingCompletedCallback()
      modifies this`callback
      ensures State() == old(State()).(c := old(State()).c.(callback := old(callback).(registered := true)))
    {
      callback := callback.(registered := true);
    }

    method Prepare(script: seq<OutputEvent>)
      modifies this`bytesReceived, this`numTracksAdded, this`eosReceived, this`eosSent, this`stopReceived
      modifies this`codec, this`muxer
      ensures State() == PrepareState(old(State()), script)
    {
      bytesReceived, numTracksAdded := 0, 0;
      eosReceived, eosSent, stopReceived := false, false, false;
      codec := Codec(script, [], [], false);
      muxer := Muxer([], false);
    }

    /** stop(): submits a FINALIZE_ENCODER task unless the service is shut down. */
    method Stop() returns (task: EncoderTask?)
      modifies this`service
      ensures old(service.shutdown) ==> task == null && service == old(service)
      ensures !old(service.shutdown) ==> task != null && fresh(task) && service == old(service).(queue := old(service.queue) + [task])
                                         && task.initialized && task.kind == FinalizeEncoder
    {
      task := null;
      if !service.shutdown {
        task := new EncoderTask.Finalize();
        service := service.(queue := service.queue + [task]);
      }
    }

    /** offerAudioEncoder: submits an ENCODE_FRAME task unless the service is shut down. */
    method OfferAudioEncoder(input: Input, ptsNs: int) returns (task: EncoderTask?)
      modifies this`service, this`queueLength
      ensures old(service.shutdown) ==> task == null && service == old(service) && queueLength == old(queueLength)
      ensures !old(service.shutdown) ==> task != null && fresh(task) && service == old(service).(queue := old(service.queue) + [task])
                                         && task.initialized && task.kind == EncodeFrame && task.audioData == Some(input)
                                         && task.ptsNs == ptsNs && queueLength == old(queueLength) + 1
    {
      task := null;
      if !service.shutdown {
        task := new EncoderTask.Frame(input, ptsNs);
        service := service.(queue := service.queue + [task]);
        queueLength := queueLength + 1;
      }
    }

    /** One pass of drainEncoder's loop body, for the result just dequeued. */
    method HandleOutput(event: OutputEvent, endOfStream: bool) returns (stop: bool, outcome: Outcome)
      modifies this`codec, this`muxer, this`muxerStarted, this`numTracksAdded, this`trackIndex
      ensures var r := HandleEvent(old(DrainView()), event, endOfStream);
              && stop == r.Stop?
              && DrainView() == After(r)
              && (stop ==> outcome == r.outcome)
    {
      outcome := Completed;
      stop := false;
      match event {
        case TryAgainLater =>
          stop := !endOfStream;
        case OutputBuffersChanged =>
        case OtherStatus(_) =>
        case OutputFormatChanged =>
          if muxerStarted {
            return true, Threw(FormatChangedAfterStart);
          }
          trackIndex := CountAddTrack(muxer.ops);
          muxer := muxer.(ops := muxer.ops + [AddTrack]);
          numTracksAdded := numTracksAdded + 1;
          if numTracksAdded == TOTAL_NUM_TRACKS {
            muxer := muxer.(ops := muxer.ops + [StartMuxer]);
            muxerStarted := true;
          }
        case Buffer(index, isNull, size, codecConfig, eos) =>
          if isNull {
            return true, Threw(NullOutputBuffer);
          }
          var size' := if codecConfig then 0 else size;
          if size' != 0 {
            if !muxerStarted {
              return true, Threw(MuxerNotStarted);
            }
            muxer := muxer.(ops := muxer.ops + [WriteSample(trackIndex, size')]);
          }
          codec := codec.(releasedOutputs := codec.releasedOutputs + [index]);
          stop := eos;
      }
    }

    /** drainEncoder's while(true) loop, on a codec that is not released. */
    method DrainLoop(endOfStream: bool) returns (outcome: Outcome)
      modifies this`codec, this`muxer, this`muxerStarted, this`numTracksAdded, this`trackIndex
      ensures (DrainView(), outcome) == Drain(old(DrainView()), endOfStream)
    {
      while true
        invariant Drain(DrainView(), endOfStream) == Drain(old(DrainView()), endOfStream)
        decreases |codec.output|
      {
        if codec.output == [] {
          // dequeueOutputBuffer answers TRY_AGAIN_LATER from now on
          return if endOfStream then Hung else Completed;
        }
        var event := codec.output[0];
        codec := codec.(output := codec.output[1..]);
        var stop;
        stop, outcome := HandleOutput(event, endOfStream);
        if stop {
          return;
        }
      }
    }

    /** drainEncoder. */
    method DrainEncoder(endOfStream: bool) returns (outcome: Outcome)
      modifies this`codec, this`muxer, this`muxerStarted, this`numTracksAdded, this`trackIndex
      ensures (State(), outcome) == DrainEncoderState(old(State()), endOfStream)
    {
      if codec.released {
        return Threw(CodecReleased);
      }
      outcome := DrainLoop(endOfStream);
    }

    /** closeMuxer, run after the codec's release inside closeEncoderAndMuxer's try block. */
    method CloseMuxer()
      modifies this`muxer, this`muxerStarted
      ensures var p := Replay(old(muxer.ops));
              if old(muxer.isNull) || !(p.Some? && p.value.Started?) then muxer == old(muxer) && muxerStarted == old(muxerStarted)
              else muxer == Muxer(old(muxer.ops) + [StopMuxer, ReleaseMuxer], true) && !muxerStarted
    {
      var phase := Replay(muxer.ops);
      if muxer.isNull || !(phase.Some? && phase.value.Started?) {
        // NullPointerException or IllegalStateException from mMuxer.stop(), caught
        return;
      }
      muxer := Muxer(muxer.ops + [StopMuxer, ReleaseMuxer], true);
      muxerStarted := false;
    }

    /** closeEncoderAndMuxer. */
    method CloseEncoderAndMuxer() returns (outcome: Outcome)
      modifies this`codec, this`muxer, this`muxerStarted, this`numTracksAdded, this`trackIndex
      ensures (State(), outcome) == CloseEncoderAndMuxerState(old(State()))
    {
      outcome := DrainEncoder(true);
      if outcome != Completed {
        return;
      }
      codec := codec.(released := true);
      CloseMuxer();
    }

    method Finish()
      modifies this`service, this`callback
      ensures State() == old(State()).(c := FinishState(old(State()).c))
      ensures service.queue == old(service.queue)
    {
      service := service.(shutdown := true);
      if callback.registered {
        callback := callback.(calls := callback.calls + 1);
      }
    }

    method SendEndOfStream() returns (outcome: Outcome)
      modifies this`codec, this`muxer, this`muxerStarted, this`numTracksAdded, this`trackIndex
      modifies this`eosSent, this`service, this`callback
      ensures (State(), outcome) == SendEndOfStreamState(old(State()))
      ensures service.queue == old(service.queue)
    {
      outcome := CloseEncoderAndMuxer();
      if outcome != Completed {
        return;
      }
      eosSent := true;
      if stopReceived {
        Finish();
      }
    }

    /** The try block of _offerAudioEncoder. */
    method QueueInput(input: Input, ptsUs: int) returns (outcome: Outcome)
      modifies this`codec, this`muxer, this`muxerStarted, this`numTracksAdded, this`trackIndex
      modifies this`eosSent, this`service, this`callback, this`poller
      ensures (State(), outcome) == QueueInputState(old(State()), input, ptsUs)
      ensures service.queue == old(service.queue)
    {
      if poller.attached {
        poller := poller.(recycled := poller.recycled + [input.buffer]);
      }
      if EosQueued(codec.inputs) {
        return Completed;
      }
      codec := codec.(inputs := codec.inputs + [QueuedInput(input.length, ptsUs, eosReceived)]);
      if !eosReceived {
        return Completed;
      }
      var o := SendEndOfStream();
      return if o == Hung then Hung else Completed;
    }

    /** _offerAudioEncoder. */
    method OfferFrame(input: Input, ns: int) returns (outcome: Outcome)
      modifies this`codec, this`muxer, this`muxerStarted, this`numTracksAdded, this`trackIndex
      modifies this`eosSent, this`service, this`callback, this`poller, this`audioStartTime, this`bytesReceived
      ensures (State(), outcome) == OfferFrameState(old(State()), input, ns)
      ensures service.queue == old(service.queue)
    {
      if bytesReceived == 0 {
        audioStartTime := ns;
      }
      bytesReceived := bytesReceived + input.length;
      if eosSent && stopReceived {
        if eosReceived {
          outcome := SendEndOfStream();
        } else {
          outcome := Completed;
        }
        return;
      }
      outcome := DrainEncoder(false);
      if outcome != Completed {
        return;
      }
      outcome := QueueInput(input, JavaDiv(ns - audioStartTime, 1000));
    }

    /** EncoderTask.run: the body runs only while the task is initialised, and clears the flag when it returns normally. */
    method RunTask(task: EncoderTask) returns (outcome: Outcome)
      modifies this`codec, this`muxer, this`muxerStarted, this`numTracksAdded, this`trackIndex
      modifies this`eosSent, this`service, this`callback, this`poller, this`audioStartTime, this`bytesReceived
      modifies this`stopReceived, this`eosReceived, this`queueLength
      modifies task
      ensures !old(task.initialized) ==> outcome == Completed && State() == old(State()) && !task.initialized
      ensures old(task.initialized) ==>
                (State(), outcome) == RunTaskBody(old(State()), task.kind, old(task.audioData), task.ptsNs)
                && task.initialized == (outcome != Completed)
      ensures service.queue == old(service.queue)
    {
      if !task.initialized {
        return Completed;
      }
      match task.kind {
        case EncodeFrame =>
          if task.audioData.Some? {
            outcome := OfferFrame(task.audioData.value, task.ptsNs);
            if outcome != Completed {
              return;
            }
            task.audioData := None;
          } else {
            outcome := Completed;
          }
        case FinalizeEncoder =>
          stopReceived := true;
          eosReceived := true;
          outcome := Completed;
      }
      task.initialized := false;
      queueLength := queueLength - 1;
    }

    /** The executor's thread takes the oldest pending task and runs it. */
    method RunNextTask() returns (outcome: Outcome)
      requires service.queue != []
      modifies this, service.queue[0]
      ensures service.queue == old(service.queue[1..])
      ensures old(service.queue[0].initialized) ==>
                (State(), outcome) == RunTaskBody(old(State()), old(service.queue[0].kind), old(service.queue[0].audioData), old(service.queue[0].ptsNs))
      ensures !old(service.queue[0].initialized) ==> State() == old(State())
    {
      var task := service.queue[0];
      service := service.(queue := service.queue[1..]);
      outcome := RunTask(task);
    }
  }
}
