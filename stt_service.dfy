/**
 * The speech-to-text segment buffer (`STTService` in
 * vanta/voice/listener/stt_service.py).
 *
 * While speech is active, every AUDIO_CAPTURED chunk is appended to a buffer.
 * Processing a segment takes a snapshot of the buffer (resetting it first when
 * the segment is final), concatenates the chunks, rejects segments under 0.3 s,
 * truncates segments over 5 s, and hands the audio to the transcription
 * manager, keeping a count of transcriptions in flight.  Processing is split
 * at its one `await`: `BeginSegment` runs up to the call into the manager,
 * `FinishSegment` runs after it returns, so other events may interleave.
 */
module Stt {
  import opened Wrappers
  import opened Text

  type Chunk = seq<real>

  /** Segments shorter than this many seconds are never transcribed. */
  const MinSegmentSeconds: real := 0.3
  /** Longer segments are cut to this many seconds. */
  const MaxSegmentSeconds: real := 5.0
  /** More pending transcriptions than this and a segment is shed. */
  const MaxPending: int := 2
  /** `max_phrase_duration` when the microphone configuration has none. */
  const DefaultMaxPhraseDurationMs: real := 30000.0
  /** `sample_rate` when the microphone configuration has none. */
  const DefaultSampleRate: nat := 16000

  /** `np.concatenate(chunks)`. */
  function Concat(chunks: seq<Chunk>): (a: seq<real>)
    ensures chunks == [] ==> a == []
  {
    if chunks == [] then [] else Concat(chunks[..|chunks| - 1]) + chunks[|chunks| - 1]
  }

  /** Total number of samples held by the chunks. */
  function TotalLength(chunks: seq<Chunk>): nat {
    if chunks == [] then 0 else TotalLength(chunks[..|chunks| - 1]) + |chunks[|chunks| - 1]|
  }

  /** The combined length is the sum of the chunk lengths. */
  lemma {:induction false} ConcatLength(chunks: seq<Chunk>)
    ensures |Concat(chunks)| == TotalLength(chunks)
  {
    if chunks != [] {
      ConcatLength(chunks[..|chunks| - 1]);
    }
  }

  /** Concatenation distributes over joining two chunk lists. */
  lemma {:induction false} ConcatAppend(xs: seq<Chunk>, ys: seq<Chunk>)
    ensures Concat(xs + ys) == Concat(xs) + Concat(ys)
    decreases |ys|
  {
    if ys == [] {
      assert xs + ys == xs;
    } else {
      var last := ys[|ys| - 1];
      assert (xs + ys)[..|xs + ys| - 1] == xs + ys[..|ys| - 1];
      ConcatAppend(xs, ys[..|ys| - 1]);
    }
  }

  /** Appending one chunk appends exactly its samples, in order. */
  lemma ConcatPush(chunks: seq<Chunk>, c: Chunk)
    ensures Concat(chunks + [c]) == Concat(chunks) + c
  {
    assert (chunks + [c])[..|chunks + [c]| - 1] == chunks;
  }

  /** Every chunk occupies its own contiguous range of the combined audio, in buffer order. */
  lemma {:induction false} ConcatContainsChunk(chunks: seq<Chunk>, i: int)
    requires 0 <= i < |chunks|
    ensures TotalLength(chunks[..i]) + |chunks[i]| == TotalLength(chunks[..i + 1]) <= |Concat(chunks)|
    ensures Concat(chunks)[TotalLength(chunks[..i])..TotalLength(chunks[..i + 1])] == chunks[i]
  {
    assert chunks[..i + 1][..i] == chunks[..i];
    assert chunks[..i] + [chunks[i]] == chunks[..i + 1];
    assert chunks[..i + 1] + chunks[i + 1..] == chunks;
    ConcatPush(chunks[..i], chunks[i]);
    ConcatAppend(chunks[..i + 1], chunks[i + 1..]);
    ConcatLength(chunks[..i]);
    ConcatLength(chunks[..i + 1]);
  }

  /** The service's mutable state. */
  datatype SttState = SttState(buffer: seq<Chunk>, speechActive: bool, segmentStartTime: real, pending: int)

  /** An AUDIO_CAPTURED event as the service reads it. */
  datatype AudioCaptured = AudioCaptured(isSpeech: bool, speechEnded: bool, timestamp: Option<real>, audio: Option<Chunk>)

  /** A TRANSCRIPTION_COMPLETE publication. */
  datatype Transcription = Transcription(text: string, startTime: real, endTime: real, isFinal: bool, duration: real, confidence: real)

  /** A segment handed to the transcription manager. */
  datatype Job = Job(audio: seq<real>, startTime: real, endTime: real, duration: real, isFinal: bool)

  /** How `process_speech_segment` ends before or at its call into the manager. */
  datatype Begin =
    | EmptyBuffer
    | Shed
    | TooShort(duration: real)
    | Submitted(job: Job)

  /**
   * How the awaited part of a segment ends: the text `_transcribe_audio`
   * returned, or an exception raised while publishing that text.  An
   * exception from the manager never gets here: `_transcribe_audio` catches
   * it and returns "", which is `Text("")`.
   */
  datatype Outcome = Text(text: string) | Raised

  /** `handle_speech_detected`: a fresh, empty segment starting at the event's timestamp (the clock when it has none). */
  function SpeechDetectedStep(s: SttState, timestamp: Option<real>, now: real): SttState {
    s.(buffer := [], speechActive := true, segmentStartTime := timestamp.GetOr(now))
  }

  /**
   * `handle_audio_captured`: the new state, and how many final-segment
   * processing tasks the event schedules (one for `speech_ended`, one more when
   * the segment has outlived `max_phrase_duration`).
   */
  function AudioCapturedStep(s: SttState, e: AudioCaptured, now: real, maxPhraseMs: real): (SttState, nat) {
    var s1 := if !s.speechActive && e.isSpeech then s.(speechActive := true, segmentStartTime := e.timestamp.GetOr(now), buffer := []) else s;
    if !s1.speechActive || e.audio.None? then (s1, 0)
    else
      var s2 := s1.(buffer := s1.buffer + [e.audio.value]);
      var ended := if e.speechEnded then 1 else 0;
      var overdue := if (now - s2.segmentStartTime) * 1000.0 > maxPhraseMs then 1 else 0;
      (s2, ended + overdue)
  }

  /** `int(5.0 * sample_rate)`: the number of samples kept from an over-long segment. */
  function MaxSamples(sampleRate: nat): nat {
    5 * sampleRate
  }

  /** `process_speech_segment` up to the call into the manager. */
  function BeginStep(s: SttState, isFinal: bool, sampleRate: nat): (SttState, Begin)
    requires sampleRate > 0
  {
    if s.buffer == [] then
      (if isFinal then s.(speechActive := false) else s, EmptyBuffer)
    else if s.pending > MaxPending then
      (if isFinal then s.(speechActive := false, buffer := []) else s, Shed)
    else
      var snapshot := s.buffer;
      var s1 := if isFinal then s.(buffer := [], speechActive := false) else s;
      var audio := Concat(snapshot);
      var duration := (|audio| as real) / (sampleRate as real);
      if duration < MinSegmentSeconds then (s1, TooShort(duration))
      else
        var job :=
          if duration > MaxSegmentSeconds then
            Job(audio[..MaxSamples(sampleRate)], s.segmentStartTime, s.segmentStartTime + MaxSegmentSeconds, MaxSegmentSeconds, isFinal)
          else
            Job(audio, s.segmentStartTime, s.segmentStartTime + duration, duration, isFinal);
        (s1.(pending := s1.pending + 1), Submitted(job))
  }

  /** `process_speech_segment` after the manager returns: publish non-blank text, then release the pending slot. */
  function FinishStep(s: SttState, job: Job, outcome: Outcome): (SttState, Option<Transcription>) {
    match outcome
    case Raised => (s.(speechActive := false, pending := s.pending - 1), None)
    case Text(t) =>
      var published :=
        if t != [] && Strip(t) != [] then Some(Transcription(t, job.startTime, job.endTime, job.isFinal, job.duration, 1.0))
        else None;
      (s.(pending := s.pending - 1), published)
  }

  /** `x / y > c` for a positive divisor means `x > c·y`. */
  lemma QuotientAbove(x: real, y: real, c: real)
    requires y > 0.0 && x / y > c
    ensures x > c * y
  {
    assert x == (x / y) * y;
    assert (x / y) * y > c * y by {
      assert (x / y - c) * y > 0.0 by { MulPositive(x / y - c, y); }
    }
  }

  /** `x / y <= c` for a positive divisor means `x <= c·y`. */
  lemma QuotientAtMost(x: real, y: real, c: real)
    requires y > 0.0 && x / y <= c
    ensures x <= c * y
  {
    assert x == (x / y) * y;
    assert (c - x / y) * y >= 0.0 by { MulNonNegative(c - x / y, y); }
  }

  lemma MulNonNegative(x: real, y: real)
    requires x >= 0.0 && y >= 0.0
    ensures x * y >= 0.0
  {
  }

  /** Dividing `c·y` by `y` gives back `c`. */
  lemma ScaledQuotient(c: real, y: real)
    requires y > 0.0
    ensures (c * y) / y == c
  {
  }

  lemma MulPositive(x: real, y: real)
    requires x > 0.0 && y > 0.0
    ensures x * y > 0.0
  {
  }

  /** An empty buffer is never transcribed; a final request still ends the segment. */
  lemma EmptyBufferTranscribesNothing(s: SttState, isFinal: bool, sampleRate: nat)
    requires sampleRate > 0 && s.buffer == []
    ensures BeginStep(s, isFinal, sampleRate).1 == EmptyBuffer
    ensures BeginStep(s, isFinal, sampleRate).0 == (if isFinal then s.(speechActive := false) else s)
  {
  }

  /** With more than two transcriptions pending the segment is dropped: pending is unchanged and a final request empties the buffer. */
  lemma OverloadSheds(s: SttState, isFinal: bool, sampleRate: nat)
    requires sampleRate > 0 && s.buffer != [] && s.pending > MaxPending
    ensures BeginStep(s, isFinal, sampleRate).1 == Shed
    ensures BeginStep(s, isFinal, sampleRate).0.pending == s.pending
    ensures isFinal ==> BeginStep(s, isFinal, sampleRate).0.buffer == [] && !BeginStep(s, isFinal, sampleRate).0.speechActive
    ensures !isFinal ==> BeginStep(s, isFinal, sampleRate).0 == s
  {
  }

  /** Only a submitted segment holds a pending slot; every other outcome leaves pending as it was. */
  lemma PendingOnlyForSubmitted(s: SttState, isFinal: bool, sampleRate: nat)
    requires sampleRate > 0
    ensures BeginStep(s, isFinal, sampleRate).0.pending == s.pending + (if BeginStep(s, isFinal, sampleRate).1.Submitted? then 1 else 0)
    ensures BeginStep(s, isFinal, sampleRate).1.Submitted? <==> s.buffer != [] && s.pending <= MaxPending && TotalLength(s.buffer) as real / sampleRate as real >= MinSegmentSeconds
  {
    ConcatLength(s.buffer);
  }

  /**
   * A final segment is processed from the snapshot taken before the reset: the
   * buffer is empty and speech inactive afterwards, whatever the outcome, while
   * a non-final request leaves the buffer and flag alone.
   */
  lemma FinalResetsBuffer(s: SttState, isFinal: bool, sampleRate: nat)
    requires sampleRate > 0 && s.buffer != []
    ensures isFinal ==> BeginStep(s, isFinal, sampleRate).0.buffer == [] && !BeginStep(s, isFinal, sampleRate).0.speechActive
    ensures !isFinal ==> BeginStep(s, isFinal, sampleRate).0.buffer == s.buffer && BeginStep(s, isFinal, sampleRate).0.speechActive == s.speechActive
  {
  }

  /**
   * A submitted job carries the snapshot's samples, whole when they last at
   * most five seconds and cut to `int(5*sample_rate)` samples with duration
   * 5.0 otherwise; it lasts at least 0.3 s, with duration = samples / rate
   * and end = start + duration.
   */
  lemma SubmittedJob(s: SttState, isFinal: bool, sampleRate: nat)
    requires sampleRate > 0
    requires BeginStep(s, isFinal, sampleRate).1.Submitted?
    ensures var job := BeginStep(s, isFinal, sampleRate).1.job;
      && job.isFinal == isFinal
      && job.startTime == s.segmentStartTime
      && job.endTime == job.startTime + job.duration
      && |job.audio| <= |Concat(s.buffer)|
      && job.audio == Concat(s.buffer)[..|job.audio|]
      && MinSegmentSeconds <= job.duration <= MaxSegmentSeconds
      && job.duration == |job.audio| as real / sampleRate as real
      && |job.audio| <= MaxSamples(sampleRate)
      && (|Concat(s.buffer)| <= MaxSamples(sampleRate) ==> job.audio == Concat(s.buffer))
      && (|Concat(s.buffer)| > MaxSamples(sampleRate) ==> |job.audio| == MaxSamples(sampleRate) && job.duration == MaxSegmentSeconds)
  {
    if |Concat(s.buffer)| as real / sampleRate as real > MaxSegmentSeconds {
      QuotientAbove(|Concat(s.buffer)| as real, sampleRate as real, MaxSegmentSeconds);
      ScaledQuotient(MaxSegmentSeconds, sampleRate as real);
    } else {
      QuotientAtMost(|Concat(s.buffer)| as real, sampleRate as real, MaxSegmentSeconds);
    }
  }

  /**
   * One step of the service as the event loop interleaves them: an event
   * handler, or a processing task reaching its call into the manager or
   * returning from it.
   */
  datatype Op =
    | DetectOp(timestamp: Option<real>, now: real)
    | CaptureOp(event: AudioCaptured, now: real, maxPhraseMs: real)
    | BeginOp(isFinal: bool)
    | FinishOp(job: Job, outcome: Outcome)

  function Apply(s: SttState, op: Op, sampleRate: nat): SttState
    requires sampleRate > 0
  {
    match op
    case DetectOp(timestamp, now) => SpeechDetectedStep(s, timestamp, now)
    case CaptureOp(e, now, maxPhraseMs) => AudioCapturedStep(s, e, now, maxPhraseMs).0
    case BeginOp(isFinal) => BeginStep(s, isFinal, sampleRate).0
    case FinishOp(job, outcome) => FinishStep(s, job, outcome).0
  }

  /** The state after a trace of steps. */
  function Run(s: SttState, ops: seq<Op>, sampleRate: nat): SttState
    requires sampleRate > 0
    decreases |ops|
  {
    if ops == [] then s
    else Apply(Run(s, ops[..|ops| - 1], sampleRate), ops[|ops| - 1], sampleRate)
  }

  /** How many steps of a trace submit a segment to the manager. */
  function Opened(s: SttState, ops: seq<Op>, sampleRate: nat): nat
    requires sampleRate > 0
    decreases |ops|
  {
    if ops == [] then 0
    else
      var last := ops[|ops| - 1];
      Opened(s, ops[..|ops| - 1], sampleRate) +
      (if last.BeginOp? && BeginStep(Run(s, ops[..|ops| - 1], sampleRate), last.isFinal, sampleRate).1.Submitted? then 1 else 0)
  }

  /** How many steps of a trace return from the manager. */
  function Closed(ops: seq<Op>): nat {
    if ops == [] then 0
    else Closed(ops[..|ops| - 1]) + (if ops[|ops| - 1].FinishOp? then 1 else 0)
  }

  /** Pending counts the submitted segments that have not yet returned. */
  lemma {:induction false} PendingCountsInFlight(s: SttState, ops: seq<Op>, sampleRate: nat)
    requires sampleRate > 0
    ensures Run(s, ops, sampleRate).pending == s.pending + Opened(s, ops, sampleRate) - Closed(ops)
    decreases |ops|
  {
    if ops != [] {
      var init := ops[..|ops| - 1];
      PendingCountsInFlight(s, init, sampleRate);
      var last := ops[|ops| - 1];
      if last.BeginOp? {
        PendingOnlyForSubmitted(Run(s, init, sampleRate), last.isFinal, sampleRate);
      }
    }
  }

  /** Event handlers alone submit nothing and return nothing. */
  lemma {:induction false} EventsOnly(s: SttState, ops: seq<Op>, sampleRate: nat)
    requires sampleRate > 0
    requires forall i :: 0 <= i < |ops| ==> ops[i].DetectOp? || ops[i].CaptureOp?
    ensures Opened(s, ops, sampleRate) == 0 && Closed(ops) == 0
    decreases |ops|
  {
    if ops != [] {
      EventsOnly(s, ops[..|ops| - 1], sampleRate);
    }
  }

  /**
   * A submitted segment takes one pending slot and its return gives it back,
   * whatever runs in between: afterwards pending differs from its value before
   * by exactly the segments the steps in between submitted, less those that
   * returned.  With only event handlers in between it is back where it was.
   */
  lemma PendingBalanced(s: SttState, isFinal: bool, sampleRate: nat, between: seq<Op>, outcome: Outcome)
    requires sampleRate > 0
    requires BeginStep(s, isFinal, sampleRate).1.Submitted?
    ensures var s1 := BeginStep(s, isFinal, sampleRate).0;
      FinishStep(Run(s1, between, sampleRate), BeginStep(s, isFinal, sampleRate).1.job, outcome).0.pending ==
      s.pending + Opened(s1, between, sampleRate) - Closed(between)
    ensures (forall i :: 0 <= i < |between| ==> between[i].DetectOp? || between[i].CaptureOp?) ==>
      FinishStep(Run(BeginStep(s, isFinal, sampleRate).0, between, sampleRate), BeginStep(s, isFinal, sampleRate).1.job, outcome).0.pending ==
      s.pending
  {
    var s1 := BeginStep(s, isFinal, sampleRate).0;
    PendingOnlyForSubmitted(s, isFinal, sampleRate);
    PendingCountsInFlight(s1, between, sampleRate);
    if forall i :: 0 <= i < |between| ==> between[i].DetectOp? || between[i].CaptureOp? {
      EventsOnly(s1, between, sampleRate);
    }
  }

  /** TRANSCRIPTION_COMPLETE is published exactly for text that is not blank, and carries the job's times. */
  lemma PublishesOnlyNonBlank(s: SttState, job: Job, t: string)
    ensures FinishStep(s, job, Text(t)).1.Some? <==> !IsBlank(t)
    ensures FinishStep(s, job, Text(t)).1.Some? ==>
      FinishStep(s, job, Text(t)).1.value == Transcription(t, job.startTime, job.endTime, job.isFinal, job.duration, 1.0)
    ensures FinishStep(s, job, Text(t)).0 == s.(pending := s.pending - 1)
  {
    StripEmptyIffBlank(t);
  }

  /**
   * A manager that raises reaches the segment as the empty text: nothing is
   * published, speech_active is left as it was, and the pending slot is
   * released.
   */
  lemma ManagerErrorIsEmptyText(s: SttState, job: Job)
    ensures FinishStep(s, job, Text("")) == (s.(pending := s.pending - 1), None)
    ensures FinishStep(s, job, Text("")).0.speechActive == s.speechActive
  {
  }

  /** A failed publication publishes nothing and ends the segment. */
  lemma FailureEndsSpeech(s: SttState, job: Job)
    ensures FinishStep(s, job, Raised) == (s.(speechActive := false, pending := s.pending - 1), None)
  {
  }

  /** While inactive, audio not flagged as speech changes nothing. */
  lemma InactiveIgnoresNonSpeech(s: SttState, e: AudioCaptured, now: real, maxPhraseMs: real)
    requires !s.speechActive && !e.isSpeech
    ensures AudioCapturedStep(s, e, now, maxPhraseMs) == (s, 0)
  {
  }

  /** While active, an event carrying audio appends exactly that chunk, so the combined audio grows by exactly its samples. */
  lemma ActiveAppendsChunk(s: SttState, e: AudioCaptured, now: real, maxPhraseMs: real)
    requires s.speechActive && e.audio.Some?
    ensures AudioCapturedStep(s, e, now, maxPhraseMs).0 == s.(buffer := s.buffer + [e.audio.value])
    ensures Concat(AudioCapturedStep(s, e, now, maxPhraseMs).0.buffer) == Concat(s.buffer) + e.audio.value
  {
    ConcatPush(s.buffer, e.audio.value);
  }

  /** Speech flagged on an idle service opens a fresh segment holding just this chunk. */
  lemma SpeechFlagOpensSegment(s: SttState, e: AudioCaptured, now: real, maxPhraseMs: real)
    requires !s.speechActive && e.isSpeech && e.audio.Some?
    ensures var t := AudioCapturedStep(s, e, now, maxPhraseMs).0;
      t.speechActive && t.buffer == [e.audio.value] && t.segmentStartTime == e.timestamp.GetOr(now)
  {
  }

  /** Events without audio never grow the buffer, and schedule no processing. */
  lemma NoAudioNoGrowth(s: SttState, e: AudioCaptured, now: real, maxPhraseMs: real)
    requires e.audio.None?
    ensures AudioCapturedStep(s, e, now, maxPhraseMs).1 == 0
    ensures |AudioCapturedStep(s, e, now, maxPhraseMs).0.buffer| <= |s.buffer|
  {
  }

  /** Processing is scheduled only for an active segment that has just grown: once for `speech_ended`, once more when overdue. */
  lemma ScheduledRequests(s: SttState, e: AudioCaptured, now: real, maxPhraseMs: real)
    ensures var (t, n) := AudioCapturedStep(s, e, now, maxPhraseMs);
      && n <= 2
      && (n > 0 ==> t.speechActive && t.buffer != [] && e.audio.Some?)
      && (t.speechActive && e.audio.Some? && e.speechEnded ==> n >= 1)
  {
  }

  /** The service, with the fields `process_speech_segment` and the handlers update in place. */
  class SttService {
    var buffer: seq<Chunk>
    var speechActive: bool
    var segmentStartTime: real
    var pending: int
    const sampleRate: nat
    const maxPhraseDurationMs: real

    function State(): SttState
      reads this
    {
      SttState(buffer, speechActive, segmentStartTime, pending)
    }

    /** `__init__`: empty buffer, inactive, start time 0, nothing pending. */
    constructor(sampleRate: nat, maxPhraseDurationMs: real)
      requires sampleRate > 0
      ensures State() == SttState([], false, 0.0, 0)
      ensures this.sampleRate == sampleRate && this.maxPhraseDurationMs == maxPhraseDurationMs
    {
      this.sampleRate := sampleRate;
      this.maxPhraseDurationMs := maxPhraseDurationMs;
      buffer := [];
      speechActive := false;
      segmentStartTime := 0.0;
      pending := 0;
    }

    method HandleSpeechDetected(timestamp: Option<real>, now: real)
      modifies this
      ensures State() == SpeechDetectedStep(old(State()), timestamp, now)
    {
      buffer := [];
      speechActive := true;
      segmentStartTime := timestamp.GetOr(now);
    }

    /** Returns how many final-segment processing tasks the event schedules. */
    method HandleAudioCaptured(e: AudioCaptured, now: real) returns (scheduled: nat)
      modifies this
      ensures (State(), scheduled) == AudioCapturedStep(old(State()), e, now, maxPhraseDurationMs)
    {
      scheduled := 0;
      if !speechActive && e.isSpeech {
        speechActive := true;
        segmentStartTime := e.timestamp.GetOr(now);
        buffer := [];
      }
      if !speechActive {
        return;
      }
      if e.audio.None? {
        return;
      }
      buffer := buffer + [e.audio.value];
      if e.speechEnded {
        scheduled := scheduled + 1;
      }
      var currentMs := (now - segmentStartTime) * 1000.0;
      if currentMs > maxPhraseDurationMs && buffer != [] {
        scheduled := scheduled + 1;
      }
    }

    /** `process_speech_segment` up to the call into the manager. */
    method BeginSegment(isFinal: bool) returns (b: Begin)
      requires sampleRate > 0
      modifies this
      ensures (State(), b) == BeginStep(old(State()), isFinal, sampleRate)
    {
      if buffer == [] {
        if isFinal {
          speechActive := false;
        }
        return EmptyBuffer;
      }
      if pending > MaxPending {
        if isFinal {
          speechActive := false;
          buffer := [];
        }
        return Shed;
      }
      var snapshot := buffer;
      if isFinal {
        buffer := [];
        speechActive := false;
      }
      var audio := Concat(snapshot);
      var duration := (|audio| as real) / (sampleRate as real);
      var startTime := segmentStartTime;
      var endTime := startTime + duration;
      if duration < MinSegmentSeconds {
        return TooShort(duration);
      }
      if duration > MaxSegmentSeconds {
        QuotientAbove(|audio| as real, sampleRate as real, MaxSegmentSeconds);
        audio := audio[..MaxSamples(sampleRate)];
        duration := MaxSegmentSeconds;
        endTime := startTime + duration;
      }
      pending := pending + 1;
      b := Submitted(Job(audio, startTime, endTime, duration, isFinal));
    }

    /** `process_speech_segment` after `_transcribe_audio` returns. */
    method FinishSegment(job: Job, outcome: Outcome) returns (published: Option<Transcription>)
      modifies this
      ensures (State(), published) == FinishStep(old(State()), job, outcome)
    {
      published := None;
      match outcome {
        case Raised =>
          speechActive := false;
        case Text(t) =>
          if t != [] && Strip(t) != [] {
            published := Some(Transcription(t, job.startTime, job.endTime, job.isFinal, job.duration, 1.0));
          }
      }
      pending := pending - 1;
    }
  }
}
