/**
 * Voice-activity hysteresis (vanta/voice/listener/vad.py).
 *
 * The detector keeps three per-frame fields: whether a speech segment is
 * active, how many silent frames followed it, and how many speech frames
 * came in a row. The WebRTC classifier's verdict and the frame's RMS level
 * are inputs; the classifier's availability is fixed per detector (the
 * `webrtcvad` import either works or it does not).
 */
module Vad {
  import opened Wrappers

  const Sensitivity: int := 2
  const FrameDurationMs: nat := 30
  const SilenceThresholdMs: nat := 500
  const MinSpeechFrames: nat := 5
  const AudioThreshold: real := 0.003
  const MaxSpeechFrames: nat := 150
  const MaxSilenceFrames: nat := SilenceThresholdMs / FrameDurationMs
  /** Events whose capture level is below this are treated as completely silent. */
  const SilentEventLevel: real := 0.0001
  const DefaultSampleRate: nat := 16000

  datatype VadState = VadState(speechActive: bool, silentFrames: nat, consecutiveSpeechFrames: nat)

  const Idle := VadState(false, 0, 0)

  /** `(is_speech, speech_start, speech_end)` as returned by `process_audio`. */
  datatype Verdict = Verdict(isSpeech: bool, speechStart: bool, speechEnd: bool)

  const NoVerdict := Verdict(false, false, false)

  /**
   * What `process_audio` sees of one chunk: its length in samples, its sample
   * rate, its RMS level, and the WebRTC verdict on its first frame (`None`
   * when the classifier raised, which `process_audio` catches).
   */
  datatype Frame = Frame(sampleCount: nat, sampleRate: nat, rms: real, webrtc: Option<bool>)

  /** The hysteresis invariant: at most one counter is nonzero, an idle detector has no silence count and fewer than `MinSpeechFrames` speech frames, and the silence count stays below the hangover. */
  predicate Inv(s: VadState) {
    && (s.consecutiveSpeechFrames == 0 || s.silentFrames == 0)
    && (!s.speechActive ==> s.silentFrames == 0 && s.consecutiveSpeechFrames < MinSpeechFrames)
    && s.silentFrames < MaxSilenceFrames
  }

  /** Samples in one 30 ms frame: `int(sample_rate * 30 / 1000)`. */
  function FrameSize(sampleRate: nat): nat {
    sampleRate * FrameDurationMs / 1000
  }

  /** The AND/OR policy combining the classifier with the amplitude test. */
  predicate CombinedIsSpeech(sensitivity: int, vadSpeech: bool, level: real, threshold: real) {
    if sensitivity >= 2 then (vadSpeech && level > threshold) || level > threshold * 3.0
    else vadSpeech || level > threshold
  }

  /** The state transition of `process_audio` for one classified frame. */
  function Transition(s: VadState, speech: bool): (r: (VadState, Verdict))
    ensures Inv(s) ==> Inv(r.0)
    ensures speech ==> r.0.silentFrames == 0 && r.0.consecutiveSpeechFrames == s.consecutiveSpeechFrames + 1
    ensures !speech ==> r.0.consecutiveSpeechFrames == 0
    ensures !(r.1.speechStart && r.1.speechEnd)
  {
    if speech then
      var c := s.consecutiveSpeechFrames + 1;
      if c >= MinSpeechFrames then (VadState(true, 0, c), Verdict(true, !s.speechActive, false))
      else (VadState(s.speechActive, 0, c), NoVerdict)
    else if s.speechActive then
      var q := s.silentFrames + 1;
      if q >= MaxSilenceFrames then (Idle, Verdict(false, false, true))
      else (VadState(true, q, 0), NoVerdict)
    else (VadState(false, s.silentFrames, 0), NoVerdict)
  }

  /** `process_audio`: gate on the classifier and the frame length, then classify and step. */
  function ProcessAudioStep(s: VadState, classifierAvailable: bool, f: Frame): (VadState, Verdict) {
    if !classifierAvailable || f.sampleCount < FrameSize(f.sampleRate) then (s, NoVerdict)
    else match f.webrtc
      case None => (s, NoVerdict)
      case Some(v) => Transition(s, CombinedIsSpeech(Sensitivity, v, f.rms, AudioThreshold))
  }

  /** An AUDIO_CAPTURED payload as `handle_audio_event` reads it. */
  datatype AudioEvent = AudioEvent(
    audio: Option<Chunk>, sampleRate: Option<nat>, timestamp: Option<real>, audioLevel: Option<real>)

  /** The part of a captured chunk that `process_audio` looks at. */
  datatype Chunk = Chunk(sampleCount: nat, rms: real, webrtc: Option<bool>)

  datatype Publication =
    | SpeechDetected(timestamp: Option<real>, sampleRate: nat, audioLevel: real)
    | SpeechComplete(timestamp: Option<real>, duration: real, sampleRate: nat, forced: bool)

  /** What the handler did to the event dict (`is_speech`, `speech_ended` set to True) and what it published, in order. */
  datatype EventOutcome = EventOutcome(markedIsSpeech: bool, markedSpeechEnded: bool, published: seq<Publication>)

  const Ignored := EventOutcome(false, false, [])

  /** An event is classified only while running, with audio present and a capture level of at least 0.0001. */
  predicate Admitted(running: bool, e: AudioEvent) {
    running && e.audio.Some? && e.audioLevel.GetOr(0.0) >= SilentEventLevel
  }

  /** `handle_audio_event`: gating, classification, publications and the forced end after `MaxSpeechFrames` speech frames. */
  function AudioEventStep(running: bool, classifierAvailable: bool, s: VadState, e: AudioEvent): (VadState, EventOutcome) {
    if !Admitted(running, e) then (s, Ignored)
    else
      var rate := e.sampleRate.GetOr(DefaultSampleRate);
      var level := e.audioLevel.GetOr(0.0);
      var c := e.audio.value;
      var (s1, v) := ProcessAudioStep(s, classifierAvailable, Frame(c.sampleCount, rate, c.rms, c.webrtc));
      var started := if v.speechStart then [SpeechDetected(e.timestamp, rate, level)] else [];
      var ended := if v.speechEnd
        then [SpeechComplete(e.timestamp, (s1.silentFrames * FrameDurationMs) as real / 1000.0, rate, false)]
        else [];
      var forced := s1.speechActive && s1.consecutiveSpeechFrames >= MaxSpeechFrames;
      var forcedEnd := if forced
        then [SpeechComplete(e.timestamp, (s1.consecutiveSpeechFrames * FrameDurationMs) as real / 1000.0, rate, true)]
        else [];
      (if forced then Idle else s1, EventOutcome(s1.speechActive, v.speechEnd || forced, started + ended + forcedEnd))
  }

  // ---------------------------------------------------------------------
  // The segmenter over a stream of classified frames
  // ---------------------------------------------------------------------

  /** One admitted frame with a working classifier: the transition followed by the forced-end check. Returns the new state, "start reported" and "end reported". */
  function Segment(s: VadState, speech: bool): (VadState, bool, bool) {
    var (s1, v) := Transition(s, speech);
    var forced := s1.speechActive && s1.consecutiveSpeechFrames >= MaxSpeechFrames;
    (if forced then Idle else s1, v.speechStart, v.speechEnd || forced)
  }

  /** The per-frame (start, end) reports of the segmenter over a run of classified frames. */
  function Run(s: VadState, frames: seq<bool>): (r: (VadState, seq<(bool, bool)>))
    ensures |r.1| == |frames|
    decreases |frames|
  {
    if frames == [] then (s, [])
    else
      var (s1, st, en) := Segment(s, frames[0]);
      var (s2, rest) := Run(s1, frames[1..]);
      (s2, [(st, en)] + rest)
  }

  function Repeat(b: bool, n: nat): (r: seq<bool>)
    ensures |r| == n && forall i :: 0 <= i < n ==> r[i] == b
  {
    seq(n, _ => b)
  }

  // ---------------------------------------------------------------------
  // Properties
  // ---------------------------------------------------------------------

  /** Without a classifier, with a frame shorter than 30 ms, or when the classifier raises, nothing is reported and no counter moves. */
  lemma GatedFrameChangesNothing(s: VadState, classifierAvailable: bool, f: Frame)
    requires !classifierAvailable || f.sampleCount < FrameSize(f.sampleRate) || f.webrtc.None?
    ensures ProcessAudioStep(s, classifierAvailable, f) == (s, NoVerdict)
  {
  }

  /** At 16 kHz a frame is 480 samples, and the hangover is 16 frames. */
  lemma FrameConstants()
    ensures FrameSize(16000) == 480 && MaxSilenceFrames == 16
  {
  }

  /** In the AND mode (sensitivity 2 or more) a frame is speech only if the OR mode would also call it speech. */
  lemma AndModeIsStricter(sensitivity: int, vadSpeech: bool, level: real, threshold: real)
    requires sensitivity >= 2 && threshold >= 0.0
    ensures CombinedIsSpeech(sensitivity, vadSpeech, level, threshold) ==> CombinedIsSpeech(1, vadSpeech, level, threshold)
    ensures CombinedIsSpeech(sensitivity, vadSpeech, level, threshold) ==> level > threshold
  {
  }

  /** A frame at or below the amplitude threshold that the classifier rejects is silence in either mode. */
  lemma QuietFrameIsNotSpeech(sensitivity: int, level: real, threshold: real)
    requires threshold >= 0.0 && level <= threshold
    ensures !CombinedIsSpeech(sensitivity, false, level, threshold)
  {
  }

  /** `speech_start` is reported exactly on the frame that brings an idle detector's run of speech frames to `MinSpeechFrames`; the detector is then active. */
  lemma StartExactlyAtMinSpeechFrames(s: VadState, speech: bool)
    requires Inv(s)
    ensures Transition(s, speech).1.speechStart
      <==> speech && !s.speechActive && s.consecutiveSpeechFrames == MinSpeechFrames - 1
    ensures Transition(s, speech).1.speechStart ==>
      Transition(s, speech).0 == VadState(true, 0, MinSpeechFrames)
  {
  }

  /** `speech_end` is reported exactly on the `MaxSilenceFrames`-th silent frame of an active segment, and leaves the detector idle with both counters zero. */
  lemma EndExactlyAtMaxSilenceFrames(s: VadState, speech: bool)
    requires Inv(s)
    ensures Transition(s, speech).1.speechEnd
      <==> !speech && s.speechActive && s.silentFrames == MaxSilenceFrames - 1
    ensures Transition(s, speech).1.speechEnd ==> Transition(s, speech).0 == Idle
  {
  }

  /** Silent frames are only counted while a segment is active. */
  lemma SilenceCountedOnlyWhileActive(s: VadState, speech: bool)
    requires Inv(s)
    ensures Transition(s, speech).0.silentFrames > 0 ==> s.speechActive && Transition(s, speech).0.speechActive
    ensures Transition(s, speech).0.silentFrames == (if !speech && s.speechActive && s.silentFrames + 1 < MaxSilenceFrames then s.silentFrames + 1 else 0)
  {
  }

  /** `handle_audio_event` keeps the hysteresis invariant, ignores events it does not admit, and never leaves a segment active with `MaxSpeechFrames` or more speech frames. */
  lemma HandleAudioEventKeepsInv(running: bool, classifierAvailable: bool, s: VadState, e: AudioEvent)
    requires Inv(s)
    ensures Inv(AudioEventStep(running, classifierAvailable, s, e).0)
    ensures !Admitted(running, e) ==> AudioEventStep(running, classifierAvailable, s, e) == (s, Ignored)
    ensures var s' := AudioEventStep(running, classifierAvailable, s, e).0;
      Admitted(running, e) && s'.speechActive ==> s'.consecutiveSpeechFrames < MaxSpeechFrames
  {
  }

  /** An admitted event with a working classifier whose chunk is long enough and classified follows the segmenter step: start and end are reported through the publications. */
  lemma HandleAudioEventIsSegment(s: VadState, e: AudioEvent)
    requires Inv(s) && Admitted(true, e)
    requires e.audio.value.sampleCount >= FrameSize(e.sampleRate.GetOr(DefaultSampleRate)) && e.audio.value.webrtc.Some?
    ensures var (s', o) := AudioEventStep(true, true, s, e);
      var c := e.audio.value;
      var (t, started, ended) := Segment(s, CombinedIsSpeech(Sensitivity, c.webrtc.value, c.rms, AudioThreshold));
      && s' == t
      && o.markedSpeechEnded == ended
      && (started <==> exists i :: 0 <= i < |o.published| && o.published[i].SpeechDetected?)
      && (ended <==> exists i :: 0 <= i < |o.published| && o.published[i].SpeechComplete?)
  {
    var (s', o) := AudioEventStep(true, true, s, e);
    var c := e.audio.value;
    var rate := e.sampleRate.GetOr(DefaultSampleRate);
    var (s1, v) := ProcessAudioStep(s, true, Frame(c.sampleCount, rate, c.rms, c.webrtc));
    assert !(v.speechStart && v.speechEnd);
    if v.speechStart {
      assert o.published[0].SpeechDetected?;
    }
    if v.speechEnd {
      assert o.published[0].SpeechComplete?;
    } else if s1.speechActive && s1.consecutiveSpeechFrames >= MaxSpeechFrames {
      assert o.published[|o.published| - 1].SpeechComplete?;
    }
  }

  /** Running two batches of frames one after the other is running them as one batch. */
  lemma {:induction false} RunAppend(s: VadState, a: seq<bool>, b: seq<bool>)
    ensures Run(s, a + b) == (Run(Run(s, a).0, b).0, Run(s, a).1 + Run(Run(s, a).0, b).1)
    decreases |a|
  {
    if a == [] {
      assert a + b == b;
      assert Run(s, a) == (s, []);
      assert Run(s, a).1 + Run(s, b).1 == Run(s, b).1;
    } else {
      assert (a + b)[0] == a[0];
      assert (a + b)[1..] == a[1..] + b;
      var (s1, st, en) := Segment(s, a[0]);
      var ra := Run(s1, a[1..]);
      var rb := Run(ra.0, b);
      RunAppend(s1, a[1..], b);
      assert Run(s, a) == (ra.0, [(st, en)] + ra.1);
      assert Run(s, a + b) == (rb.0, [(st, en)] + (ra.1 + rb.1));
      assert [(st, en)] + (ra.1 + rb.1) == ([(st, en)] + ra.1) + rb.1;
    }
  }

  /** Over frames that are all silence, the segmenter never reports a start. */
  lemma {:induction false} SilenceNeverStarts(s: VadState, frames: seq<bool>)
    requires forall i :: 0 <= i < |frames| ==> !frames[i]
    ensures forall i :: 0 <= i < |frames| ==> !Run(s, frames).1[i].0
    decreases |frames|
  {
    if frames != [] {
      SilenceNeverStarts(Segment(s, false).0, frames[1..]);
    }
  }

  /** A run of speech frames from a state whose speech count is `c` (active exactly when `c` has reached `MinSpeechFrames`). */
  lemma {:induction false} SpeechRun(c: nat, n: nat)
    requires c + n < MaxSpeechFrames
    ensures var (t, reports) := Run(VadState(c >= MinSpeechFrames, 0, c), Repeat(true, n));
      && t == VadState(c + n >= MinSpeechFrames, 0, c + n)
      && forall i :: 0 <= i < n ==> reports[i] == (c + i + 1 == MinSpeechFrames, false)
    decreases n
  {
    if n > 0 {
      assert Repeat(true, n)[1..] == Repeat(true, n - 1);
      SpeechRun(c + 1, n - 1);
    }
  }

  /** A run of silent frames from an active state with `q` silent frames (and any speech count), up to the end of the hangover. */
  lemma {:induction false} SilenceRun(q: nat, c: nat, n: nat)
    requires q + n <= MaxSilenceFrames && q < MaxSilenceFrames
    ensures var (t, reports) := Run(VadState(true, q, c), Repeat(false, n));
      && t == (if q + n == MaxSilenceFrames then Idle else VadState(true, q + n, if n == 0 then c else 0))
      && forall i :: 0 <= i < n ==> reports[i] == (false, q + i + 1 == MaxSilenceFrames)
    decreases n
  {
    if n > 0 {
      assert Repeat(false, n)[1..] == Repeat(false, n - 1);
      if q + 1 < MaxSilenceFrames {
        SilenceRun(q + 1, 0, n - 1);
      } else {
        IdleStaysIdle(n - 1);
      }
    }
  }

  /** An idle detector fed only silence stays idle and reports nothing. */
  lemma {:induction false} IdleStaysIdle(n: nat)
    ensures Run(Idle, Repeat(false, n)) == (Idle, seq(n, _ => (false, false)))
    decreases n
  {
    if n == 0 {
      assert Repeat(false, n) == [];
      assert seq(n, _ => (false, false)) == [];
    } else {
      assert Repeat(false, n)[1..] == Repeat(false, n - 1);
      IdleStaysIdle(n - 1);
      assert Segment(Idle, false) == (Idle, false, false);
      assert seq(n, _ => (false, false)) == [(false, false)] + seq(n - 1, _ => (false, false));
    }
  }

  /** Silence after an active segment: exactly one end, on the sixteenth silent frame, and idle from then on. */
  lemma SilenceAfterSpeech(c: nat, m: nat)
    requires m >= MaxSilenceFrames
    ensures var (t, reports) := Run(VadState(true, 0, c), Repeat(false, m));
      && t == Idle
      && forall j :: 0 <= j < m ==> reports[j] == (false, j == MaxSilenceFrames - 1)
  {
    var hangover, rest := Repeat(false, MaxSilenceFrames), Repeat(false, m - MaxSilenceFrames);
    assert Repeat(false, m) == hangover + rest;
    RunAppend(VadState(true, 0, c), hangover, rest);
    SilenceRun(0, c, MaxSilenceFrames);
    IdleStaysIdle(m - MaxSilenceFrames);
    var r2 := Run(VadState(true, 0, c), hangover).1;
    var r3 := Run(Idle, rest).1;
    forall j | 0 <= j < m
      ensures (r2 + r3)[j] == (false, j == MaxSilenceFrames - 1)
    {
      if j >= MaxSilenceFrames {
        assert (r2 + r3)[j] == r3[j - MaxSilenceFrames];
      }
    }
  }

  /**
   * From an idle detector, `k` speech frames (at least `MinSpeechFrames`,
   * fewer than `MaxSpeechFrames`) followed by `m` silent frames (at least the
   * hangover) give exactly one start, on the fifth frame, and exactly one end,
   * on the sixteenth silent frame; the detector is idle again afterwards.
   */
  lemma SpeechThenSilence(k: nat, m: nat)
    requires MinSpeechFrames <= k < MaxSpeechFrames && m >= MaxSilenceFrames
    ensures var (t, reports) := Run(Idle, Repeat(true, k) + Repeat(false, m));
      && t == Idle
      && forall i :: 0 <= i < k + m ==>
           (reports[i].0 <==> i == MinSpeechFrames - 1) && (reports[i].1 <==> i == k + MaxSilenceFrames - 1)
  {
    RunAppend(Idle, Repeat(true, k), Repeat(false, m));
    SpeechRun(0, k);
    SilenceAfterSpeech(k, m);
    var r1: seq<(bool, bool)> := Run(Idle, Repeat(true, k)).1;
    var r2: seq<(bool, bool)> := Run(VadState(true, 0, k), Repeat(false, m)).1;
    forall i | 0 <= i < k + m
      ensures ((r1 + r2)[i].0 <==> i == MinSpeechFrames - 1) && ((r1 + r2)[i].1 <==> i == k + MaxSilenceFrames - 1)
    {
      if i >= k {
        assert (r1 + r2)[i] == r2[i - k];
      }
    }
  }

  /** `MaxSpeechFrames` uninterrupted speech frames from idle force an end on the last of them, with no silence at all. */
  lemma LongSpeechIsForcedToEnd()
    ensures var (t, reports) := Run(Idle, Repeat(true, MaxSpeechFrames));
      && t == Idle
      && forall i :: 0 <= i < MaxSpeechFrames ==>
           (reports[i].0 <==> i == MinSpeechFrames - 1) && (reports[i].1 <==> i == MaxSpeechFrames - 1)
  {
    assert Repeat(true, MaxSpeechFrames) == Repeat(true, MaxSpeechFrames - 1) + [true];
    RunAppend(Idle, Repeat(true, MaxSpeechFrames - 1), [true]);
    SpeechRun(0, MaxSpeechFrames - 1);
  }

  // ---------------------------------------------------------------------
  // The detector object
  // ---------------------------------------------------------------------

  class VoiceActivityDetector {
    var speechActive: bool
    var silentFrames: nat
    var consecutiveSpeechFrames: nat
    var running: bool
    /** Whether the WebRTC classifier has been created (`self._vad is not None`). */
    var vadCreated: bool
    /** Whether `webrtcvad` can be imported in this process. */
    const webrtcInstalled: bool

    function State(): VadState
      reads this
    {
      VadState(speechActive, silentFrames, consecutiveSpeechFrames)
    }

    ghost predicate Valid()
      reads this
    {
      Inv(State()) && (vadCreated ==> webrtcInstalled)
    }

    constructor (webrtcInstalled: bool)
      ensures Valid() && State() == Idle && !running && !vadCreated
      ensures this.webrtcInstalled == webrtcInstalled
    {
      this.webrtcInstalled := webrtcInstalled;
      speechActive, silentFrames, consecutiveSpeechFrames := false, 0, 0;
      running, vadCreated := false, false;
    }

    /** `_get_vad`: create the classifier on first use; report whether one exists. */
    method GetVad() returns (available: bool)
      requires Valid()
      modifies this`vadCreated
      ensures Valid() && available == webrtcInstalled
      ensures vadCreated == (old(vadCreated) || webrtcInstalled)
    {
      if !vadCreated && webrtcInstalled {
        vadCreated := true;
      }
      available := vadCreated;
    }

    method ResetState()
      requires Valid()
      modifies this
      ensures Valid() && State() == Idle
      ensures running == old(running) && vadCreated == old(vadCreated)
    {
      speechActive := false;
      silentFrames := 0;
      consecutiveSpeechFrames := 0;
    }

    /** `start`: a second call does nothing; the first sets `running` and creates the classifier. */
    method Start()
      requires Valid()
      modifies this
      ensures Valid() && running && State() == old(State())
      ensures vadCreated == (old(vadCreated) || (!old(running) && webrtcInstalled))
    {
      if running {
        return;
      }
      running := true;
      var _ := GetVad();
    }

    method Stop()
      requires Valid()
      modifies this
      ensures Valid() && !running && State() == old(State()) && vadCreated == old(vadCreated)
    {
      running := false;
    }

    /** `process_audio`, field by field as the source updates them. */
    method ProcessAudio(f: Frame) returns (v: Verdict)
      requires Valid()
      modifies this
      ensures Valid() && running == old(running)
      ensures (State(), v) == ProcessAudioStep(old(State()), webrtcInstalled, f)
      ensures vadCreated == (old(vadCreated) || webrtcInstalled)
    {
      var available := GetVad();
      if !available {
        return NoVerdict;
      }
      var frameSize := f.sampleRate * FrameDurationMs / 1000;
      var detected, started, ended := false, false, false;
      if f.sampleCount >= frameSize && f.webrtc.Some? {
        var combined := CombinedIsSpeech(Sensitivity, f.webrtc.value, f.rms, AudioThreshold);
        if combined {
          consecutiveSpeechFrames := consecutiveSpeechFrames + 1;
          silentFrames := 0;
          if consecutiveSpeechFrames >= MinSpeechFrames {
            if !speechActive {
              speechActive := true;
              started := true;
            }
            detected := true;
          }
        } else {
          consecutiveSpeechFrames := 0;
          if speechActive {
            silentFrames := silentFrames + 1;
            if silentFrames >= MaxSilenceFrames {
              speechActive := false;
              ended := true;
              silentFrames := 0;
              consecutiveSpeechFrames := 0;
            }
          }
        }
      }
      v := Verdict(detected, started, ended);
    }

    /** `handle_audio_event`: the gating, the classification, the event flags, the publications and the forced end. */
    method HandleAudioEvent(e: AudioEvent) returns (o: EventOutcome)
      requires Valid()
      modifies this
      ensures Valid() && running == old(running)
      ensures (State(), o) == AudioEventStep(old(running), webrtcInstalled, old(State()), e)
      ensures vadCreated == (old(vadCreated) || (Admitted(old(running), e) && webrtcInstalled))
    {
      if !running || e.audio.None? {
        return Ignored;
      }
      var rate := e.sampleRate.GetOr(DefaultSampleRate);
      var level := e.audioLevel.GetOr(0.0);
      if level < SilentEventLevel {
        return Ignored;
      }
      var c := e.audio.value;
      var v := ProcessAudio(Frame(c.sampleCount, rate, c.rms, c.webrtc));
      var started: seq<Publication> := [];
      if v.speechStart {
        started := [SpeechDetected(e.timestamp, rate, level)];
      }
      var markedIsSpeech := speechActive;
      var markedEnded := false;
      var ended: seq<Publication> := [];
      if v.speechEnd {
        markedEnded := true;
        ended := [SpeechComplete(e.timestamp, (silentFrames * FrameDurationMs) as real / 1000.0, rate, false)];
      }
      var forcedEnd: seq<Publication> := [];
      if speechActive && consecutiveSpeechFrames >= MaxSpeechFrames {
        markedEnded := true;
        speechActive := false;
        var duration := (consecutiveSpeechFrames * FrameDurationMs) as real / 1000.0;
        consecutiveSpeechFrames := 0;
        silentFrames := 0;
        forcedEnd := [SpeechComplete(e.timestamp, duration, rate, true)];
      }
      o := EventOutcome(markedIsSpeech, markedEnded, started + ended + forcedEnd);
    }
  }
}
