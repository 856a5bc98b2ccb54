/**
 * The answer app's microphone capture loop (AudioSoftwarePoller and its
 * RecorderTask): a bounded pool of recycled sample buffers, an emergency
 * allocation budget, a read-error budget, and the hand-over of timestamped
 * frames to the encoder.
 *
 * The hardware is abstract: each loop iteration is driven by a Tick, which
 * gives the clock reading taken before the read, what AudioRecord.read
 * returned, and what the other threads did before the next loop test (the
 * encoder recycling buffers, stopPolling clearing the flag).
 */
module AudioCapture {
  import opened Common

  const SAMPLE_RATE: int := 16000
  const FRAMES_PER_BUFFER: int := 24
  /** Capacity of the buffer queue; half of it is allocated up front, half is the emergency budget. */
  const BUFFER_LIMIT: nat := 50
  const DEFAULT_SAMPLES_PER_FRAME: int := 2048
  const MAX_READ_ERRORS: nat := 10

  /** AudioRecord.read's two error results that the loop treats as read errors. */
  const ERROR_BAD_VALUE: int := -2
  const ERROR_INVALID_OPERATION: int := -3

  predicate IsReadError(result: int) { result == ERROR_BAD_VALUE || result == ERROR_INVALID_OPERATION }

  /**
   * The size passed to AudioRecord: FRAMES_PER_BUFFER frames, unless the
   * device minimum is larger; None is the division by zero a zero frame size
   * causes in that case. Both products are 32-bit int arithmetic; wrapping
   * once at the end of the enlarged product gives the same value as Java's
   * wrapping after each step.
   */
  function RecordBufferSize(samplesPerFrame: int, minBufferSize: int): (r: Option<int>)
    ensures r.Some? ==> INT_MIN <= r.value <= INT_MAX
    ensures (0 <= samplesPerFrame && minBufferSize <= samplesPerFrame * FRAMES_PER_BUFFER <= INT_MAX) ==>
              r == Some(samplesPerFrame * FRAMES_PER_BUFFER)
    ensures r.None? <==> samplesPerFrame == 0 && minBufferSize > 0
  {
    var size := WrapInt(samplesPerFrame * FRAMES_PER_BUFFER);
    if size >= minBufferSize then Some(size)
    else if samplesPerFrame == 0 then None
    else Some(WrapInt((JavaDiv(minBufferSize, samplesPerFrame) + 1) * samplesPerFrame * 2))
  }

  /**
   * When a positive device minimum is larger than the 24-frame size and the
   * enlarged size fits in an int, the enlarged size is a whole number of
   * frames and exceeds the minimum.
   */
  lemma EnlargedBufferSize(samplesPerFrame: int, minBufferSize: int)
    requires samplesPerFrame > 0 && minBufferSize >= 0 && WrapInt(samplesPerFrame * FRAMES_PER_BUFFER) < minBufferSize
    requires (minBufferSize / samplesPerFrame + 1) * samplesPerFrame * 2 <= INT_MAX
    ensures RecordBufferSize(samplesPerFrame, minBufferSize).Some?
    ensures RecordBufferSize(samplesPerFrame, minBufferSize).value % samplesPerFrame == 0
    ensures RecordBufferSize(samplesPerFrame, minBufferSize).value > minBufferSize
  {
    var q := minBufferSize / samplesPerFrame;
    var v := (q + 1) * samplesPerFrame * 2;
    assert v >= 0;
    assert RecordBufferSize(samplesPerFrame, minBufferSize) == Some(v);
    MultipleOf(2 * (q + 1), samplesPerFrame);
    assert v == 2 * (q + 1) * samplesPerFrame;
    assert (q + 1) * samplesPerFrame > minBufferSize by {
      assert minBufferSize == q * samplesPerFrame + minBufferSize % samplesPerFrame;
      assert (q + 1) * samplesPerFrame == q * samplesPerFrame + samplesPerFrame;
    }
  }

  /**
   * A frame of 100 000 000 samples makes the 24-frame product wrap to a
   * negative int, so even a device minimum of 4096 takes the enlarged branch,
   * whose own product wraps as well.
   */
  lemma RecordBufferSizeWraps()
    ensures WrapInt(100000000 * FRAMES_PER_BUFFER) == -1894967296
    ensures RecordBufferSize(100000000, 4096) == Some(WrapInt(200000000)) == Some(200000000)
  {
    assert WrapInt(2400000000) == -1894967296;
    assert JavaDiv(4096, 100000000) == 0;
  }

  lemma MultipleOf(k: int, m: int)
    requires m > 0
    ensures (k * m) % m == 0
  {
    var v := k * m;
    var q, r := v / m, v % m;
    assert (k - q) * m == r;
    if k - q >= 1 {
      assert false;
    } else if k - q <= -1 {
      assert false;
    }
  }

  /**
   * getMicrosecondsPerFrame as written: (SAMPLE_RATE / samplesPerFrame) * 1000000
   * in 32-bit int arithmetic, which is frames per second scaled by a million.
   * None is the division by zero.
   */
  function MicrosecondsPerFrameAsWritten(samplesPerFrame: int): (r: Option<int>)
    ensures r.None? <==> samplesPerFrame == 0
    ensures r.Some? ==> INT_MIN <= r.value <= INT_MAX
    ensures samplesPerFrame > SAMPLE_RATE ==> r == Some(0)
    ensures samplesPerFrame >= 8 ==> r.value >= 0 && r.value % 1000000 == 0
  {
    if samplesPerFrame == 0 then None
    else
      var perSecond := JavaDiv(SAMPLE_RATE, samplesPerFrame);
      if samplesPerFrame >= 8 then
        FramesPerSecondScaled(samplesPerFrame);
        Some(WrapInt(perSecond * 1000000))
      else Some(WrapInt(perSecond * 1000000))
  }

  /** From 8 samples a frame up, at most 2000 frames a second: scaled by a million that still fits in an int. */
  lemma FramesPerSecondScaled(samplesPerFrame: int)
    requires samplesPerFrame >= 8
    ensures var q := JavaDiv(SAMPLE_RATE, samplesPerFrame);
            0 <= q <= 2000 && 0 <= q * 1000000 <= INT_MAX && (q * 1000000) % 1000000 == 0
            && (samplesPerFrame > SAMPLE_RATE ==> q == 0)
  {
    var q := SAMPLE_RATE / samplesPerFrame;
    assert JavaDiv(SAMPLE_RATE, samplesPerFrame) == q;
    FramesPerSecondBound(samplesPerFrame);
    MultipleOf(q, 1000000);
  }

  lemma FramesPerSecondBound(samplesPerFrame: int)
    requires samplesPerFrame >= 8
    ensures 0 <= SAMPLE_RATE / samplesPerFrame <= 2000
    ensures samplesPerFrame > SAMPLE_RATE ==> SAMPLE_RATE / samplesPerFrame == 0
  {
    var q := SAMPLE_RATE / samplesPerFrame;
    assert q * samplesPerFrame <= SAMPLE_RATE;
    ProductGrows(q, 8, samplesPerFrame);
  }

  lemma ProductGrows(q: int, a: int, b: int)
    requires q >= 0 && a <= b
    ensures q * a <= q * b
  {
    assert q * b == q * a + q * (b - a);
  }

  /** For the default 2048-sample frame the written formula gives 7 seconds, and for 1 sample a negative value. */
  lemma MicrosecondsPerFrameDiscrepancy()
    ensures MicrosecondsPerFrameAsWritten(DEFAULT_SAMPLES_PER_FRAME) == Some(7000000)
    ensures MicrosecondsPerFrame(DEFAULT_SAMPLES_PER_FRAME) == 128000
    ensures MicrosecondsPerFrameAsWritten(1).value < 0
  {
    assert JavaDiv(SAMPLE_RATE, DEFAULT_SAMPLES_PER_FRAME) == 7;
    assert JavaDiv(SAMPLE_RATE, 1) == 16000;
    assert WrapInt(16000 * 1000000) == -1179869184;
  }

  /** The duration of one frame of samplesPerFrame samples at SAMPLE_RATE, in whole microseconds. */
  function MicrosecondsPerFrame(samplesPerFrame: nat): (us: nat)
    ensures us * SAMPLE_RATE <= samplesPerFrame * 1000000 < (us + 1) * SAMPLE_RATE
  {
    samplesPerFrame * 1000000 / SAMPLE_RATE
  }

  type BufferId = nat

  /** A buffer handed to the encoder, with the timestamp taken just before the read that filled it. */
  datatype Frame = Frame(buffer: BufferId, timeNs: int)

  /**
   * One iteration of the capture loop: the clock reading and read result of
   * this iteration, then what the other threads do before the loop test:
   * buffers the encoder recycles and whether stopPolling was called.
   */
  datatype Tick = Tick(timeNs: int, readResult: int, recycled: seq<BufferId>, stopRequested: bool)

  /** The loop's state: the free buffers, the allocation counter, the two budgets and the flag. */
  datatype Capture = Capture(
    pool: seq<BufferId>,
    issued: nat,
    buffersAdded: nat,
    readErrors: nat,
    recording: bool,
    offered: seq<Frame>)

  /**
   * ArrayBlockingQueue.offer for each recycled buffer in turn: appended while
   * there is room, dropped once the pool holds BUFFER_LIMIT buffers.
   */
  function OfferAll(pool: seq<BufferId>, recycled: seq<BufferId>): (r: seq<BufferId>)
    requires |pool| <= BUFFER_LIMIT
    ensures |r| <= BUFFER_LIMIT
    ensures r == pool + recycled[..if |recycled| < BUFFER_LIMIT - |pool| then |recycled| else BUFFER_LIMIT - |pool|]
    decreases |recycled|
  {
    if recycled == [] then pool
    else if |pool| < BUFFER_LIMIT then
      var r := OfferAll(pool + [recycled[0]], recycled[1..]);
      assert recycled[..1] + recycled[1..][..if |recycled| - 1 < BUFFER_LIMIT - |pool| - 1 then |recycled| - 1 else BUFFER_LIMIT - |pool| - 1]
          == recycled[..if |recycled| < BUFFER_LIMIT - |pool| then |recycled| else BUFFER_LIMIT - |pool|];
      r
    else pool
  }

  /** A free buffer is reused; otherwise a new one is allocated and the emergency budget is charged. */
  function Acquire(s: Capture): (r: (Capture, BufferId))
    ensures |s.pool| > 0 ==> r.1 == s.pool[0] && r.0 == s.(pool := s.pool[1..])
    ensures |s.pool| == 0 ==> r.1 == s.issued && r.0.issued == s.issued + 1
                              && r.0.buffersAdded == s.buffersAdded + 1
                              && r.0.recording == (s.recording && s.buffersAdded + 1 < BUFFER_LIMIT / 2)
  {
    if |s.pool| == 0 then
      var added := s.buffersAdded + 1;
      (s.(issued := s.issued + 1, buffersAdded := added,
          recording := if added >= BUFFER_LIMIT / 2 then false else s.recording), s.issued)
    else (s.(pool := s.pool[1..]), s.pool[0])
  }

  /** The loop body for one tick, followed by the other threads' actions before the next loop test. */
  function Iterate(s: Capture, t: Tick, encoderAttached: bool): (r: Capture)
    requires |s.pool| <= BUFFER_LIMIT
    ensures |r.pool| <= BUFFER_LIMIT
    ensures r.recording ==> s.recording && !t.stopRequested
    ensures r.readErrors == s.readErrors + (if IsReadError(t.readResult) then 1 else 0)
    ensures |r.offered| == |s.offered| + (if !IsReadError(t.readResult) && encoderAttached then 1 else 0)
    ensures r.offered[..|s.offered|] == s.offered
    ensures |r.offered| > |s.offered| ==> r.offered[|s.offered|].timeNs == t.timeNs
  {
    var (s1, buffer) := Acquire(s);
    var s2 :=
      if IsReadError(t.readResult) then
        s1.(readErrors := s1.readErrors + 1,
            recording := if s1.readErrors + 1 >= MAX_READ_ERRORS then false else s1.recording)
      else if encoderAttached then s1.(offered := s1.offered + [Frame(buffer, t.timeNs)])
      else s1;
    s2.(pool := OfferAll(s2.pool, t.recycled), recording := s2.recording && !t.stopRequested)
  }

  /** The capture loop over the ticks it observes; it ends when the flag is found cleared. */
  function RunTicks(s: Capture, ticks: seq<Tick>, encoderAttached: bool): (r: Capture)
    requires |s.pool| <= BUFFER_LIMIT
    ensures |r.pool| <= BUFFER_LIMIT
    ensures r.recording ==> s.recording
    ensures r.readErrors >= s.readErrors
    ensures |r.offered| >= |s.offered| && r.offered[..|s.offered|] == s.offered
    decreases |ticks|
  {
    if !s.recording || ticks == [] then s
    else RunTicks(Iterate(s, ticks[0], encoderAttached), ticks[1..], encoderAttached)
  }

  /** How many ticks the loop body ran for. */
  function Executed(s: Capture, ticks: seq<Tick>, encoderAttached: bool): (n: nat)
    requires |s.pool| <= BUFFER_LIMIT
    ensures n <= |ticks|
    decreases |ticks|
  {
    if !s.recording || ticks == [] then 0
    else 1 + Executed(Iterate(s, ticks[0], encoderAttached), ticks[1..], encoderAttached)
  }

  /** The timestamps of the reads that succeeded. */
  function SuccessfulReads(ticks: seq<Tick>): seq<int>
  {
    if ticks == [] then []
    else (if IsReadError(ticks[0].readResult) then [] else [ticks[0].timeNs])
         + SuccessfulReads(ticks[1..])
  }

  function CountReadErrors(ticks: seq<Tick>): nat
  {
    if ticks == [] then 0
    else (if IsReadError(ticks[0].readResult) then 1 else 0) + CountReadErrors(ticks[1..])
  }

  /** The timestamps of the frames handed to the encoder. */
  function Timing(frames: seq<Frame>): seq<int>
  {
    if frames == [] then [] else [frames[0].timeNs] + Timing(frames[1..])
  }

  lemma {:induction false} TimingAppend(a: seq<Frame>, b: seq<Frame>)
    ensures Timing(a + b) == Timing(a) + Timing(b)
  {
    if a != [] {
      assert (a + b)[0] == a[0];
      assert (a + b)[1..] == a[1..] + b;
      TimingAppend(a[1..], b);
      calc {
        Timing(a + b);
        [a[0].timeNs] + Timing(a[1..] + b);
        [a[0].timeNs] + (Timing(a[1..]) + Timing(b));
        ([a[0].timeNs] + Timing(a[1..])) + Timing(b);
      }
    } else {
      assert a + b == b;
    }
  }

  lemma {:induction false} SuccessfulReadsCons(t: Tick, ticks: seq<Tick>, n: nat)
    requires n < |ticks| && ticks[0] == t
    ensures SuccessfulReads(ticks[..n + 1])
         == (if IsReadError(t.readResult) then [] else [t.timeNs]) + SuccessfulReads(ticks[1..][..n])
    ensures CountReadErrors(ticks[..n + 1])
         == (if IsReadError(t.readResult) then 1 else 0) + CountReadErrors(ticks[1..][..n])
  {
    assert ticks[..n + 1][1..] == ticks[1..][..n];
  }

  /** One pass of the loop offers the read's timestamp when the read succeeded and counts it when it failed. */
  lemma IterateOffersRead(s: Capture, t: Tick)
    requires |s.pool| <= BUFFER_LIMIT
    ensures Timing(Iterate(s, t, true).offered)
         == Timing(s.offered) + (if IsReadError(t.readResult) then [] else [t.timeNs])
    ensures Iterate(s, t, true).readErrors == s.readErrors + (if IsReadError(t.readResult) then 1 else 0)
  {
    var (s1, b) := Acquire(s);
    TimingAppend(s1.offered, [Frame(b, t.timeNs)]);
  }

  /**
   * With an encoder attached, every successful read is offered to it, in read
   * order, with the timestamp taken before that read; a failed read is not.
   * Read errors are counted cumulatively: a successful read never resets the count.
   */
  lemma RunOffersSuccessfulReads(s: Capture, ticks: seq<Tick>)
    requires |s.pool| <= BUFFER_LIMIT
    ensures var n := Executed(s, ticks, true);
            var r := RunTicks(s, ticks, true);
            Timing(r.offered) == Timing(s.offered) + SuccessfulReads(ticks[..n])
            && r.readErrors == s.readErrors + CountReadErrors(ticks[..n])
  {
    RunTimesSuccessfulReads(s, ticks);
    RunCountsReadErrors(s, ticks);
  }

  /** The offered timestamps part of RunOffersSuccessfulReads. */
  lemma {:induction false} RunTimesSuccessfulReads(s: Capture, ticks: seq<Tick>)
    requires |s.pool| <= BUFFER_LIMIT
    ensures Timing(RunTicks(s, ticks, true).offered)
         == Timing(s.offered) + SuccessfulReads(ticks[..Executed(s, ticks, true)])
    decreases |ticks|
  {
    if s.recording && ticks != [] {
      var s' := Iterate(s, ticks[0], true);
      RunTimesSuccessfulReads(s', ticks[1..]);
      var n' := Executed(s', ticks[1..], true);
      var read := if IsReadError(ticks[0].readResult) then [] else [ticks[0].timeNs];
      SuccessfulReadsCons(ticks[0], ticks, n');
      IterateOffersRead(s, ticks[0]);
      calc {
        Timing(RunTicks(s', ticks[1..], true).offered);
        Timing(s'.offered) + SuccessfulReads(ticks[1..][..n']);
        (Timing(s.offered) + read) + SuccessfulReads(ticks[1..][..n']);
        { ConcatAssociates(Timing(s.offered), read, SuccessfulReads(ticks[1..][..n'])); }
        Timing(s.offered) + (read + SuccessfulReads(ticks[1..][..n']));
        Timing(s.offered) + SuccessfulReads(ticks[..n' + 1]);
      }
    } else {
      assert ticks[..0] == [];
    }
  }

  lemma ConcatAssociates(a: seq<int>, b: seq<int>, c: seq<int>)
    ensures (a + b) + c == a + (b + c)
  {
  }

  /** The read-error part of RunOffersSuccessfulReads. */
  lemma {:induction false} RunCountsReadErrors(s: Capture, ticks: seq<Tick>)
    requires |s.pool| <= BUFFER_LIMIT
    ensures RunTicks(s, ticks, true).readErrors == s.readErrors + CountReadErrors(ticks[..Executed(s, ticks, true)])
    decreases |ticks|
  {
    if s.recording && ticks != [] {
      var s' := Iterate(s, ticks[0], true);
      RunCountsReadErrors(s', ticks[1..]);
      SuccessfulReadsCons(ticks[0], ticks, Executed(s', ticks[1..], true));
    } else {
      assert ticks[..0] == [];
    }
  }

  /** Invariant of the loop from its start: the pool is bounded and both budgets are respected. */
  ghost predicate Bounded(s: Capture)
  {
    && |s.pool| <= BUFFER_LIMIT
    && s.buffersAdded <= BUFFER_LIMIT / 2
    && s.readErrors <= MAX_READ_ERRORS
    && (s.recording ==> s.buffersAdded < BUFFER_LIMIT / 2 && s.readErrors < MAX_READ_ERRORS)
  }

  /**
   * The pool never holds more than BUFFER_LIMIT buffers, at most BUFFER_LIMIT / 2
   * emergency buffers are ever issued and at most MAX_READ_ERRORS reads fail:
   * the loop stops as soon as either budget is used up.
   */
  lemma {:induction false} RunStaysBounded(s: Capture, ticks: seq<Tick>, encoderAttached: bool)
    requires Bounded(s)
    ensures Bounded(RunTicks(s, ticks, encoderAttached))
    ensures RunTicks(s, ticks, encoderAttached).issued - s.issued
         == RunTicks(s, ticks, encoderAttached).buffersAdded - s.buffersAdded
    decreases |ticks|
  {
    if s.recording && ticks != [] {
      RunStaysBounded(Iterate(s, ticks[0], encoderAttached), ticks[1..], encoderAttached);
    }
  }

  /** The loop only ends before the ticks run out because a budget was used up or stopPolling was called. */
  lemma {:induction false} RunEndsForAReason(s: Capture, ticks: seq<Tick>, encoderAttached: bool)
    requires Bounded(s) && s.recording
    requires Executed(s, ticks, encoderAttached) < |ticks|
    ensures var n := Executed(s, ticks, encoderAttached);
            var r := RunTicks(s, ticks, encoderAttached);
            !r.recording && n > 0
            && (r.buffersAdded == BUFFER_LIMIT / 2 || r.readErrors == MAX_READ_ERRORS || ticks[n - 1].stopRequested)
    decreases |ticks|
  {
    var s' := Iterate(s, ticks[0], encoderAttached);
    if s'.recording {
      RunEndsForAReason(s', ticks[1..], encoderAttached);
    }
  }

  /** The buffer queue of the recorder task. */
  class RecorderTask {
    var samplesPerFrame: int
    var pool: seq<BufferId>
    /** How many byte[] buffers this task has issued; the next one gets this identity. */
    var issued: nat

    ghost predicate Valid() reads this { |pool| <= BUFFER_LIMIT }

    constructor ()
      ensures Valid() && samplesPerFrame == DEFAULT_SAMPLES_PER_FRAME && pool == [] && issued == 0
    {
      samplesPerFrame := DEFAULT_SAMPLES_PER_FRAME;
      pool := [];
      issued := 0;
    }
  }

  datatype RunOutcome =
    | DivisionByZero        // RecordBufferSize with a zero frame size
    | NegativeArraySize     // a negative frame size, at the first allocation
    | QueueFull             // BlockingQueue.add when a reused task's queue is already full
    | Stopped(buffersAdded: nat, readErrors: nat)

  class AudioSoftwarePoller {
    /** The static recording flag. */
    var isRecording: bool
    const task: RecorderTask
    var encoderAttached: bool
    /** Every offerAudioEncoder call made by the capture loop, in order. */
    var offered: seq<Frame>

    ghost predicate Valid() reads this, task { task.Valid() }

    constructor ()
      ensures Valid() && fresh(task) && !isRecording && !encoderAttached && offered == []
      ensures task.samplesPerFrame == DEFAULT_SAMPLES_PER_FRAME && task.pool == []
    {
      task := new RecorderTask();
      isRecording := false;
      encoderAttached := false;
      offered := [];
    }

    method SetAudioEncoder()
      modifies this
      ensures encoderAttached && isRecording == old(isRecording) && offered == old(offered)
    {
      encoderAttached := true;
    }

    /** The frame size can only be changed while not recording. */
    method SetSamplesPerFrame(samplesPerFrame: int)
      requires Valid()
      modifies task
      ensures Valid() && task.pool == old(task.pool) && task.issued == old(task.issued)
      ensures task.samplesPerFrame == if old(isRecording) then old(task.samplesPerFrame) else samplesPerFrame
    {
      if !isRecording {
        task.samplesPerFrame := samplesPerFrame;
      }
    }

    /** The encoder hands a buffer back; offer drops it when the queue is full. */
    method RecycleInputBuffer(buffer: BufferId)
      requires Valid()
      modifies task
      ensures Valid() && task.samplesPerFrame == old(task.samplesPerFrame) && task.issued == old(task.issued)
      ensures task.pool == if |old(task.pool)| < BUFFER_LIMIT then old(task.pool) + [buffer] else old(task.pool)
    {
      if |task.pool| < BUFFER_LIMIT {
        task.pool := task.pool + [buffer];
      }
    }

    /** Only clears the flag; the loop notices at its next test. */
    method StopPolling()
      modifies this
      ensures !isRecording && encoderAttached == old(encoderAttached) && offered == old(offered)
    {
      isRecording := false;
    }

    /** Every buffer the encoder recycles is offered back in turn. */
    method RecycleAll(recycled: seq<BufferId>)
      requires Valid()
      modifies task
      ensures Valid() && task.samplesPerFrame == old(task.samplesPerFrame) && task.issued == old(task.issued)
      ensures task.pool == OfferAll(old(task.pool), recycled)
    {
      var j := 0;
      while j < |recycled|
        invariant 0 <= j <= |recycled| && task.Valid()
        invariant task.samplesPerFrame == old(task.samplesPerFrame) && task.issued == old(task.issued)
        invariant OfferAll(task.pool, recycled[j..]) == OfferAll(old(task.pool), recycled)
      {
        assert recycled[j..][1..] == recycled[j + 1..];
        RecycleInputBuffer(recycled[j]);
        j := j + 1;
      }
      assert recycled[j..] == [];
    }

    /** The buffer for the next read: taken from the queue, or a new one charged to the emergency budget. */
    method AcquireBuffer(buffersAdded: nat) returns (buffer: BufferId, added: nat)
      requires Valid()
      modifies this, task
      ensures Valid() && task.samplesPerFrame == old(task.samplesPerFrame)
      ensures encoderAttached == old(encoderAttached) && offered == old(offered)
      ensures var (c, b) := Acquire(Capture(old(task.pool), old(task.issued), buffersAdded, 0, old(isRecording), []));
              buffer == b && task.pool == c.pool && task.issued == c.issued && added == c.buffersAdded
              && isRecording == c.recording
    {
      added := buffersAdded;
      if |task.pool| == 0 {
        buffer := task.issued;
        task.issued := task.issued + 1;
        added := added + 1;
        if added >= BUFFER_LIMIT / 2 {
          isRecording := false;
        }
      } else {
        buffer := task.pool[0];
        task.pool := task.pool[1..];
      }
    }

    /** One pass of the capture loop's body, then the other threads' actions before the loop test. */
    method CaptureOnce(t: Tick, buffersAdded: nat, readErrors: nat) returns (added: nat, errors: nat)
      requires Valid()
      modifies this, task
      ensures Valid() && task.samplesPerFrame == old(task.samplesPerFrame) && encoderAttached == old(encoderAttached)
      ensures Capture(task.pool, task.issued, added, errors, isRecording, offered)
           == Iterate(Capture(old(task.pool), old(task.issued), buffersAdded, readErrors, old(isRecording), old(offered)),
                      t, encoderAttached)
    {
      ghost var before := Capture(task.pool, task.issued, buffersAdded, readErrors, isRecording, offered);
      var buffer;
      buffer, added := AcquireBuffer(buffersAdded);
      errors := readErrors;
      // read, then hand the frame to the encoder
      if IsReadError(t.readResult) {
        errors := errors + 1;
        if errors >= MAX_READ_ERRORS {
          isRecording := false;
        }
      } else if encoderAttached {
        offered := offered + [Frame(buffer, t.timeNs)];
      }
      ghost var read := Capture(task.pool, task.issued, added, errors, isRecording, offered);
      assert read == Iterate(before, t, encoderAttached).(pool := read.pool, recording := read.recording);
      // the encoder recycles buffers and stopPolling may be called before the loop test
      RecycleAll(t.recycled);
      if t.stopRequested {
        StopPolling();
      }
    }

    /**
     * The pre-population loop of RecorderTask.run: BUFFER_LIMIT / 2 new
     * buffers are added to the queue. A negative frame size throws at the
     * first allocation; BlockingQueue.add throws once the queue holds
     * BUFFER_LIMIT buffers, which happens only when it already held more than
     * BUFFER_LIMIT / 2.
     */
    method PreFill() returns (failure: Option<RunOutcome>)
      requires Valid()
      modifies task
      ensures Valid() && task.samplesPerFrame == old(task.samplesPerFrame)
      ensures failure == Some(NegativeArraySize) <==> task.samplesPerFrame < 0
      ensures failure == Some(QueueFull) <==> task.samplesPerFrame >= 0 && |old(task.pool)| > BUFFER_LIMIT / 2
      ensures failure.None? <==> task.samplesPerFrame >= 0 && |old(task.pool)| <= BUFFER_LIMIT / 2
      ensures failure == Some(NegativeArraySize) ==> task.pool == old(task.pool) && task.issued == old(task.issued)
      ensures failure == Some(QueueFull) ==>
                && task.pool == old(task.pool) + seq(BUFFER_LIMIT - |old(task.pool)|, k => old(task.issued) + k)
                && task.issued == old(task.issued) + BUFFER_LIMIT - |old(task.pool)|
      ensures failure.None? ==>
                && task.pool == old(task.pool) + seq(BUFFER_LIMIT / 2, k => old(task.issued) + k)
                && task.issued == old(task.issued) + BUFFER_LIMIT / 2
    {
      ghost var pool0 := task.pool;
      ghost var issued0 := task.issued;
      var x := 0;
      while x < BUFFER_LIMIT / 2
        invariant 0 <= x <= BUFFER_LIMIT / 2
        invariant task.Valid() && task.samplesPerFrame == old(task.samplesPerFrame)
        invariant task.pool == pool0 + seq(x, k => issued0 + k) && task.issued == issued0 + x
        invariant task.samplesPerFrame >= 0 || x == 0
      {
        if task.samplesPerFrame < 0 {
          assert task.pool == pool0;
          return Some(NegativeArraySize);
        }
        if |task.pool| == BUFFER_LIMIT {
          return Some(QueueFull);
        }
        task.pool := task.pool + [task.issued];
        task.issued := task.issued + 1;
        x := x + 1;
      }
      return None;
    }

    /**
     * RecorderTask.run: size the device buffer, pre-populate the queue with
     * BUFFER_LIMIT / 2 buffers, then capture until the flag is cleared.
     */
    method Run(minBufferSize: int, ticks: seq<Tick>) returns (outcome: RunOutcome)
      requires Valid()
      modifies this, task
      ensures Valid() && task.samplesPerFrame == old(task.samplesPerFrame)
      ensures encoderAttached == old(encoderAttached)
      ensures outcome == DivisionByZero <==> RecordBufferSize(old(task.samplesPerFrame), minBufferSize).None?
      ensures outcome == NegativeArraySize <==>
                RecordBufferSize(old(task.samplesPerFrame), minBufferSize).Some? && old(task.samplesPerFrame) < 0
      ensures outcome == QueueFull <==>
                && RecordBufferSize(old(task.samplesPerFrame), minBufferSize).Some? && old(task.samplesPerFrame) >= 0
                && |old(task.pool)| > BUFFER_LIMIT / 2
      ensures outcome.Stopped? <==>
                && RecordBufferSize(old(task.samplesPerFrame), minBufferSize).Some? && old(task.samplesPerFrame) >= 0
                && |old(task.pool)| <= BUFFER_LIMIT / 2
      ensures outcome == DivisionByZero || outcome == NegativeArraySize ==>
                task.pool == old(task.pool) && task.issued == old(task.issued)
      ensures outcome == QueueFull ==>
                && task.pool == old(task.pool) + seq(BUFFER_LIMIT - |old(task.pool)|, k => old(task.issued) + k)
                && task.issued == old(task.issued) + BUFFER_LIMIT - |old(task.pool)|
      ensures !outcome.Stopped? ==> isRecording == old(isRecording) && offered == old(offered)
      ensures outcome.Stopped? && |old(task.pool)| <= BUFFER_LIMIT / 2 ==>
        var start := Capture(old(task.pool) + seq(BUFFER_LIMIT / 2, k => old(task.issued) + k),
                             old(task.issued) + BUFFER_LIMIT / 2, 0, 0, true, old(offered));
        var r := RunTicks(start, ticks, old(encoderAttached));
        && task.pool == r.pool && task.issued == r.issued && offered == r.offered
        && !isRecording == !r.recording
        && outcome == Stopped(r.buffersAdded, r.readErrors)
    {
      var bufferSize := RecordBufferSize(task.samplesPerFrame, minBufferSize);
      if bufferSize.None? {
        return DivisionByZero;
      }
      var failure := PreFill();
      if failure.Some? {
        return failure.value;
      }

      ghost var start := Capture(task.pool, task.issued, 0, 0, true, offered);
      assert start == Capture(old(task.pool) + seq(BUFFER_LIMIT / 2, k => old(task.issued) + k),
                              old(task.issued) + BUFFER_LIMIT / 2, 0, 0, true, old(offered));
      var buffersAdded, readErrors := 0, 0;
      isRecording := true;
      var i := 0;
      while isRecording && i < |ticks|
        invariant 0 <= i <= |ticks|
        invariant task.Valid() && task.samplesPerFrame == old(task.samplesPerFrame)
        invariant RunTicks(Capture(task.pool, task.issued, buffersAdded, readErrors, isRecording, offered), ticks[i..], encoderAttached)
               == RunTicks(start, ticks, encoderAttached)
        invariant encoderAttached == old(encoderAttached)
      {
        buffersAdded, readErrors := CaptureOnce(ticks[i], buffersAdded, readErrors);
        assert ticks[i..][1..] == ticks[i + 1..];
        i := i + 1;
      }
      ghost var finish := Capture(task.pool, task.issued, buffersAdded, readErrors, isRecording, offered);
      assert !finish.recording || ticks[i..] == [];
      assert RunTicks(start, ticks, encoderAttached) == finish;
      outcome := Stopped(buffersAdded, readErrors);
    }
  }
}
