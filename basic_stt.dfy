/**
 * The Whisper-free fallback heuristic (vanta/voice/listener/basic_stt.py).
 *
 * Audio is a sequence of samples as reals. Square roots are avoided: an RMS
 * or standard-deviation comparison against a nonnegative bound is stated as
 * the comparison of the squared quantity against the squared bound.
 */
module BasicStt {
  import opened Wrappers

  type Audio = seq<real>

  const DefaultSilenceThreshold: real := 0.01
  /** `1e-10`, added to the peak before normalising. */
  const NormaliseEpsilon: real := 0.0000000001
  /** Standard deviation of the normalised signal above which it counts as speech. */
  const SpeechStdDev: real := 0.05
  /** Peak amplitude above which a frame counts as active. */
  const FramePeakThreshold: real := 0.01
  const SamplesPerFrame: nat := 1000

  const Silent: string := ""
  const Brief: string := "..."
  const ShortPhrase: string := "... short phrase ..."
  const Sentence: string := "... sentence ..."
  const LongerSpeech: string := "... longer speech ..."

  function Abs(x: real): real {
    if x < 0.0 then -x else x
  }

  function Sum(a: Audio): real {
    if a == [] then 0.0 else a[0] + Sum(a[1..])
  }

  function SumSq(a: Audio): real {
    if a == [] then 0.0 else a[0] * a[0] + SumSq(a[1..])
  }

  /** `np.max(np.abs(a))`; zero for no samples (where numpy raises instead). */
  function Peak(a: Audio): (p: real)
    ensures p >= 0.0
    ensures forall i :: 0 <= i < |a| ==> Abs(a[i]) <= p
    ensures a != [] ==> exists i :: 0 <= i < |a| && Abs(a[i]) == p
  {
    if a == [] then 0.0
    else
      var rest := Peak(a[1..]);
      if Abs(a[0]) >= rest then Abs(a[0]) else rest
  }

  /** `is_silence`: RMS below the threshold, i.e. mean square below its square. The mean of no samples is NaN, which compares false. */
  predicate IsSilence(a: Audio, threshold: real) {
    |a| > 0 && threshold > 0.0 && SumSq(a) < threshold * threshold * (|a| as real)
  }

  /** `audio / (np.max(np.abs(audio)) + 1e-10)`. */
  function Normalise(a: Audio): Audio {
    Scale(a, Peak(a) + NormaliseEpsilon)
  }

  function Scale(a: Audio, c: real): (b: Audio)
    requires c != 0.0
    ensures |b| == |a| && forall i :: 0 <= i < |a| ==> b[i] == a[i] / c
  {
    if a == [] then [] else [a[0] / c] + Scale(a[1..], c)
  }

  /**
   * `n² · Var(a)`: the population variance (`np.std` squared) is the mean of
   * the squares minus the square of the mean, `(n·Σa² − (Σa)²) / n²`.
   */
  function Spread(a: Audio): real {
    (|a| as real) * SumSq(a) - Sum(a) * Sum(a)
  }

  /** `detect_speech_content`: not silent, and the normalised signal's standard deviation exceeds 0.05, i.e. its variance exceeds 0.0025. numpy raises on no samples. */
  predicate DetectSpeechContent(a: Audio)
    requires a != []
  {
    var n := |a| as real;
    !IsSilence(a, DefaultSilenceThreshold) && Spread(Normalise(a)) > SpeechStdDev * SpeechStdDev * n * n
  }

  // ---------------------------------------------------------------------
  // Frame splitting (`np.array_split`) and the duration estimate
  // ---------------------------------------------------------------------

  /** `max(1, len(audio) // 1000)`. */
  function FrameCount(n: nat): (k: nat)
    ensures k >= 1
  {
    if n / SamplesPerFrame < 1 then 1 else n / SamplesPerFrame
  }

  /** The piece sizes `np.array_split` uses: the first `n % k` pieces get one sample more than the other `n // k`. */
  function PieceSizes(n: nat, k: nat): (sizes: seq<nat>)
    requires k >= 1
    ensures |sizes| == k
  {
    var q, r := Quotient(n, k), Remainder(n, k);
    seq(k, j => q + (if j < r then 1 else 0))
  }

  /** `n // k` by repeated subtraction. */
  function Quotient(n: nat, k: nat): nat
    requires k >= 1
    decreases n
  {
    if n < k then 0 else 1 + Quotient(n - k, k)
  }

  /** `n % k` by repeated subtraction. */
  function Remainder(n: nat, k: nat): nat
    requires k >= 1
    decreases n
  {
    if n < k then n else Remainder(n - k, k)
  }

  lemma {:induction false} DivisionIdentity(n: nat, k: nat)
    requires k >= 1
    ensures n == k * Quotient(n, k) + Remainder(n, k) && Remainder(n, k) < k
    decreases n
  {
    if n >= k {
      DivisionIdentity(n - k, k);
      assert k * (1 + Quotient(n - k, k)) == k + k * Quotient(n - k, k);
    }
  }

  function Total(sizes: seq<nat>): nat {
    if sizes == [] then 0 else Total(sizes[..|sizes| - 1]) + sizes[|sizes| - 1]
  }

  /** Cut `a` into consecutive pieces of the given sizes. */
  function Split(a: Audio, sizes: seq<nat>): (pieces: seq<Audio>)
    requires Total(sizes) == |a|
    ensures |pieces| == |sizes|
    decreases |sizes|
  {
    if sizes == [] then []
    else
      var m := |a| - sizes[|sizes| - 1];
      Split(a[..m], sizes[..|sizes| - 1]) + [a[m..]]
  }

  /** `np.array_split(audio, k)`: `k` consecutive pieces whose sizes differ by at most one. */
  function ArraySplit(a: Audio, k: nat): (frames: seq<Audio>)
    requires k >= 1
    ensures |frames| == k
  {
    PieceSizesTotal(|a|, k);
    Split(a, PieceSizes(|a|, k))
  }

  function Flatten(frames: seq<Audio>): Audio {
    if frames == [] then [] else Flatten(frames[..|frames| - 1]) + frames[|frames| - 1]
  }

  /** Frames whose peak exceeds 0.01. */
  function ActiveCount(frames: seq<Audio>): (c: nat)
    ensures c <= |frames|
  {
    if frames == [] then 0
    else ActiveCount(frames[..|frames| - 1]) + (if Peak(frames[|frames| - 1]) > FramePeakThreshold then 1 else 0)
  }

  /** What `estimate_speech_duration` computes: active frames times the mean frame length, in seconds. */
  function EstimatedDuration(a: Audio, sampleRate: nat): (d: real)
    requires sampleRate > 0
    ensures 0.0 <= d <= (|a| as real) / (sampleRate as real)
  {
    var k := FrameCount(|a|);
    ActiveShare(ActiveCount(ArraySplit(a, k)), k, |a|, sampleRate)
  }

  /** `active_frames * (len(audio) / len(frames)) / sample_rate`: `c` of `k` frames of mean length `n/k`, in seconds; at most the whole audio. */
  function ActiveShare(c: nat, k: nat, n: nat, sampleRate: nat): (d: real)
    requires c <= k && k >= 1 && sampleRate > 0
    ensures 0.0 <= d <= (n as real) / (sampleRate as real)
  {
    var d := (c as real) * ((n as real) / (k as real)) / (sampleRate as real);
    ScaledShareBounds(c as real, k as real, n as real, sampleRate as real, d);
    d
  }

  /** `estimate_speech_duration`: the frame loop. numpy raises on no samples and Python on a zero rate. */
  method EstimateSpeechDuration(a: Audio, sampleRate: nat) returns (duration: real)
    requires a != [] && sampleRate > 0
    ensures duration == EstimatedDuration(a, sampleRate)
  {
    var k := FrameCount(|a|);
    var frames := ArraySplit(a, k);
    var active := 0;
    var j := 0;
    while j < k
      invariant 0 <= j <= k
      invariant active == ActiveCount(frames[..j])
    {
      assert frames[..j + 1][..j] == frames[..j];
      if Peak(frames[j]) > FramePeakThreshold {
        active := active + 1;
      }
      j := j + 1;
    }
    assert frames[..k] == frames;
    duration := ActiveShare(active, k, |a|, sampleRate);
  }

  /** `simple_transcription`: the length gate, the content test and the duration ladder. */
  function SimpleTranscription(audio: Option<Audio>, sampleRate: nat): (t: string)
    requires sampleRate > 0
    ensures t in {Silent, Brief, ShortPhrase, Sentence, LongerSpeech}
  {
    if audio.None? || (|audio.value| as real) < (sampleRate as real) * 0.2 then Silent
    else if !DetectSpeechContent(audio.value) then Silent
    else Ladder(EstimatedDuration(audio.value, sampleRate))
  }

  /** The duration ladder of `simple_transcription`. */
  function Ladder(duration: real): (t: string)
    ensures t in {Brief, ShortPhrase, Sentence, LongerSpeech}
  {
    if duration < 0.5 then Brief
    else if duration < 1.0 then ShortPhrase
    else if duration < 2.0 then Sentence
    else LongerSpeech
  }

  // ---------------------------------------------------------------------
  // Properties
  // ---------------------------------------------------------------------

  lemma {:induction false} PieceSizesPrefix(n: nat, k: nat, m: nat)
    requires k >= 1 && m <= k
    ensures var q, r := Quotient(n, k), Remainder(n, k);
      Total(PieceSizes(n, k)[..m]) == m * q + (if m < r then m else r)
    decreases m
  {
    var sizes := PieceSizes(n, k);
    if m > 0 {
      PieceSizesPrefix(n, k, m - 1);
      assert sizes[..m][..m - 1] == sizes[..m - 1];
      assert sizes[..m][m - 1] == Quotient(n, k) + (if m - 1 < Remainder(n, k) then 1 else 0);
      PrefixStep(m, Quotient(n, k), Remainder(n, k));
    }
  }

  /** One more piece adds the quotient, plus one while below the remainder. */
  lemma PrefixStep(m: nat, q: nat, r: nat)
    requires m >= 1
    ensures m * q + (if m < r then m else r) == (m - 1) * q + (if m - 1 < r then m - 1 else r) + q + (if m - 1 < r then 1 else 0)
  {
    assert m * q == (m - 1) * q + q;
  }

  lemma {:induction false} PieceSizesTotal(n: nat, k: nat)
    requires k >= 1
    ensures Total(PieceSizes(n, k)) == n
  {
    PieceSizesPrefix(n, k, k);
    assert PieceSizes(n, k)[..k] == PieceSizes(n, k);
    DivisionIdentity(n, k);
  }

  /** Cutting and putting back together gives the audio, in order, with each piece of its requested size. */
  lemma {:induction false} SplitFlattens(a: Audio, sizes: seq<nat>)
    requires Total(sizes) == |a|
    ensures Flatten(Split(a, sizes)) == a
    ensures forall j :: 0 <= j < |sizes| ==> |Split(a, sizes)[j]| == sizes[j]
    decreases |sizes|
  {
    if sizes != [] {
      var m := |a| - sizes[|sizes| - 1];
      var init := Split(a[..m], sizes[..|sizes| - 1]);
      SplitFlattens(a[..m], sizes[..|sizes| - 1]);
      var pieces := init + [a[m..]];
      assert pieces[..|pieces| - 1] == init;
      assert a[..m] + a[m..] == a;
    }
  }

  lemma {:induction false} ArraySplitIsPartition(a: Audio, k: nat)
    requires k >= 1
    ensures Flatten(ArraySplit(a, k)) == a
    ensures forall j :: 0 <= j < k ==>
      |ArraySplit(a, k)[j]| == Quotient(|a|, k) || |ArraySplit(a, k)[j]| == Quotient(|a|, k) + 1
  {
    PieceSizesTotal(|a|, k);
    SplitFlattens(a, PieceSizes(|a|, k));
  }

  /** Every sample of a piece is a sample of the audio. */
  lemma {:induction false} FlattenMembers(frames: seq<Audio>, j: nat, x: real)
    requires j < |frames| && x in frames[j]
    ensures x in Flatten(frames)
  {
    if j < |frames| - 1 {
      FlattenMembers(frames[..|frames| - 1], j, x);
    }
  }

  /** `0 <= c <= k` frames of mean length `n/k` make at most `n` samples. */
  lemma {:induction false} ScaledShareBounds(c: real, k: real, n: real, sr: real, d: real)
    requires 0.0 <= c <= k && k > 0.0 && n >= 0.0 && sr > 0.0 && d == c * (n / k) / sr
    ensures 0.0 <= d <= n / sr
  {
    var m := n / k;
    assert m >= 0.0;
    assert c * m <= k * m;
    assert k * m == n;
    assert c * m / sr <= n / sr;
  }

  /** No sample above 0.01 in magnitude: no active frame, so the estimate is zero. */
  lemma {:induction false} QuietFramesAreInactive(frames: seq<Audio>)
    requires forall j, i :: 0 <= j < |frames| && 0 <= i < |frames[j]| ==> Abs(frames[j][i]) <= FramePeakThreshold
    ensures ActiveCount(frames) == 0
  {
    if frames != [] {
      QuietFramesAreInactive(frames[..|frames| - 1]);
      var last := frames[|frames| - 1];
      if last != [] {
        var i :| 0 <= i < |last| && Abs(last[i]) == Peak(last);
      }
    }
  }

  lemma {:induction false} QuietAudioHasZeroDuration(a: Audio, sampleRate: nat)
    requires sampleRate > 0
    requires forall i :: 0 <= i < |a| ==> Abs(a[i]) <= FramePeakThreshold
    ensures EstimatedDuration(a, sampleRate) == 0.0
  {
    var k := FrameCount(|a|);
    var frames := ArraySplit(a, k);
    ArraySplitIsPartition(a, k);
    forall j, i | 0 <= j < |frames| && 0 <= i < |frames[j]|
      ensures Abs(frames[j][i]) <= FramePeakThreshold
    {
      FlattenMembers(frames, j, frames[j][i]);
    }
    QuietFramesAreInactive(frames);
  }

  /** Samples all smaller than the threshold make silence; one large enough sample rules it out. */
  lemma {:induction false} SumSqBelow(a: Audio, threshold: real)
    requires forall i :: 0 <= i < |a| ==> Abs(a[i]) < threshold
    ensures a != [] ==> SumSq(a) < threshold * threshold * (|a| as real)
    ensures SumSq(a) >= 0.0
  {
    if a != [] {
      SumSqBelow(a[1..], threshold);
      SquareBelow(a[0], threshold);
    }
  }

  lemma {:induction false} SquareBelow(x: real, t: real)
    requires Abs(x) < t
    ensures x * x < t * t
  {
    var y := Abs(x);
    assert x * x == y * y;
    MulPositive(t - y, t + y);
    assert t * t - y * y == (t - y) * (t + y);
  }

  lemma {:induction false} MulPositive(x: real, y: real)
    requires x > 0.0 && y > 0.0
    ensures x * y > 0.0
  {
  }

  lemma {:induction false} SumSqAtLeast(a: Audio, i: nat)
    requires i < |a|
    ensures SumSq(a) >= a[i] * a[i]
  {
    SumSqNonNegative(a[1..]);
    if i > 0 {
      SumSqAtLeast(a[1..], i - 1);
    }
  }

  lemma {:induction false} SumSqNonNegative(a: Audio)
    ensures SumSq(a) >= 0.0
  {
    if a != [] {
      SumSqNonNegative(a[1..]);
    }
  }

  lemma {:induction false} SilenceByAmplitude(a: Audio, threshold: real)
    requires a != [] && threshold > 0.0
    ensures (forall i :: 0 <= i < |a| ==> Abs(a[i]) < threshold) ==> IsSilence(a, threshold)
    ensures (exists i :: 0 <= i < |a| && a[i] * a[i] >= threshold * threshold * (|a| as real)) ==> !IsSilence(a, threshold)
  {
    if forall i :: 0 <= i < |a| ==> Abs(a[i]) < threshold {
      SumSqBelow(a, threshold);
    }
    if exists i :: 0 <= i < |a| && a[i] * a[i] >= threshold * threshold * (|a| as real) {
      var i :| 0 <= i < |a| && a[i] * a[i] >= threshold * threshold * (|a| as real);
      SumSqAtLeast(a, i);
    }
  }

  /** `Σ (a_i − x)² = Σa² − 2xΣa + n·x²`, which is never negative. */
  lemma {:induction false} Deviation(a: Audio, x: real)
    ensures SumSq(a) - 2.0 * x * Sum(a) + (|a| as real) * x * x >= 0.0
  {
    if a != [] {
      var t := a[1..];
      Deviation(t, x);
      assert |a| as real == |t| as real + 1.0;
      assert Sum(a) == a[0] + Sum(t) && SumSq(a) == a[0] * a[0] + SumSq(t);
      DeviationStep(SumSq(t), Sum(t), |t| as real, a[0], x);
      SquareNonNegative(a[0] - x);
    }
  }

  /** Adding one sample `y` to the sums adds `(y − x)²` to the expanded deviation. */
  lemma {:induction false} DeviationStep(q: real, s: real, n: real, y: real, x: real)
    ensures (y * y + q) - 2.0 * x * (y + s) + (n + 1.0) * x * x == (q - 2.0 * x * s + n * x * x) + (y - x) * (y - x)
  {
  }

  lemma {:induction false} SquareNonNegative(y: real)
    ensures y * y >= 0.0
  {
  }

  /** The variance is never negative (`n·Σa² ≥ (Σa)²`), so the standard deviation is defined and `std > 0.05` is `Var > 0.0025`. */
  lemma {:induction false} SpreadNonNegative(a: Audio)
    ensures Spread(a) >= 0.0
  {
    if a != [] {
      var t := a[1..];
      SpreadNonNegative(t);
      Deviation(t, a[0]);
      var n, s, q, x := |t| as real, Sum(t), SumSq(t), a[0];
      assert (n + 1.0) * (q + x * x) - (x + s) * (x + s) == (n * q - s * s) + (q - 2.0 * x * s + n * x * x);
    }
  }

  lemma {:induction false} ConstantSums(a: Audio, c: real)
    requires forall i :: 0 <= i < |a| ==> a[i] == c
    ensures Sum(a) == (|a| as real) * c && SumSq(a) == (|a| as real) * c * c
  {
    if a != [] {
      ConstantSums(a[1..], c);
    }
  }

  /** A constant signal has no variation. */
  lemma {:induction false} ConstantHasNoSpread(a: Audio, c: real)
    requires forall i :: 0 <= i < |a| ==> a[i] == c
    ensures Spread(a) == 0.0
  {
    ConstantSums(a, c);
    ConstantSpread(|a| as real, c, Sum(a), SumSq(a), Spread(a));
  }

  /** A constant signal (silence, or a DC offset) normalises to a constant signal, so it is never taken for speech. */
  lemma {:induction false} ConstantAudioIsNotSpeech(a: Audio, c: real)
    requires a != [] && forall i :: 0 <= i < |a| ==> a[i] == c
    ensures !DetectSpeechContent(a)
  {
    ConstantHasNoSpread(Normalise(a), c / (Peak(a) + NormaliseEpsilon));
    SpeechThresholdNonNegative(|a| as real);
  }

  lemma {:induction false} SpeechThresholdNonNegative(n: real)
    requires n >= 0.0
    ensures SpeechStdDev * SpeechStdDev * n * n >= 0.0
  {
    assert SpeechStdDev * SpeechStdDev * n * n == 0.0025 * (n * n);
  }

  lemma {:induction false} ConstantSpread(n: real, c: real, s: real, q: real, v: real)
    requires s == n * c && q == n * c * c && v == n * q - s * s
    ensures v == 0.0
  {
    assert n * (n * c * c) - (n * c) * (n * c) == 0.0;
  }


  /** A non-empty transcription needs at least 0.2 s of audio with speech content. */
  lemma {:induction false} TranscriptionNeedsSpeech(audio: Option<Audio>, sampleRate: nat)
    requires sampleRate > 0
    ensures SimpleTranscription(audio, sampleRate) != Silent ==>
      && audio.Some? && (|audio.value| as real) >= (sampleRate as real) * 0.2
      && DetectSpeechContent(audio.value)
      && SimpleTranscription(audio, sampleRate) == Ladder(EstimatedDuration(audio.value, sampleRate))
  {
  }

  /** Each rung of the ladder needs at least that many seconds of audio: a duration estimate never exceeds the audio's length. */
  lemma {:induction false} LadderNeedsAudio(d: real, n: real, sr: real)
    requires sr > 0.0 && d <= n / sr
    ensures Ladder(d) == ShortPhrase ==> n >= sr * 0.5
    ensures Ladder(d) == Sentence ==> n >= sr * 1.0
    ensures Ladder(d) == LongerSpeech ==> n >= sr * 2.0
  {
    LadderBands(d);
    if Ladder(d) == ShortPhrase {
      EnoughSamples(0.5, n, sr);
    } else if Ladder(d) == Sentence {
      EnoughSamples(1.0, n, sr);
    } else if Ladder(d) == LongerSpeech {
      EnoughSamples(2.0, n, sr);
    }
  }

  /** At least `k` seconds at `sr` samples per second means at least `sr · k` samples. */
  lemma {:induction false} EnoughSamples(k: real, n: real, sr: real)
    requires sr > 0.0 && k <= n / sr
    ensures n >= sr * k
  {
    QuotientTimes(n, sr);
    ScaleAtMost(k, n / sr, sr);
  }

  /** Each rung of the ladder is reached only from its own band of durations. */
  lemma LadderBands(d: real)
    ensures Ladder(d) == ShortPhrase ==> d >= 0.5
    ensures Ladder(d) == Sentence ==> d >= 1.0
    ensures Ladder(d) == LongerSpeech ==> d >= 2.0
  {
    assert |Brief| == 3 && |ShortPhrase| == 20 && |Sentence| == 16 && |LongerSpeech| == 21;
  }

  lemma {:induction false} QuotientTimes(n: real, sr: real)
    requires sr > 0.0
    ensures (n / sr) * sr == n
  {
  }

  lemma {:induction false} ScaleAtMost(k: real, m: real, sr: real)
    requires sr > 0.0 && k <= m
    ensures sr * k <= m * sr
  {
    MulNonNegative(m - k, sr);
  }

  lemma {:induction false} MulNonNegative(x: real, y: real)
    requires x >= 0.0 && y >= 0.0
    ensures x * y >= 0.0
  {
  }

  lemma {:induction false} TranscriptionNeedsAudio(audio: Option<Audio>, sampleRate: nat)
    requires sampleRate > 0
    ensures var t := SimpleTranscription(audio, sampleRate);
      && (t == ShortPhrase ==> (|audio.value| as real) >= (sampleRate as real) * 0.5)
      && (t == Sentence ==> (|audio.value| as real) >= (sampleRate as real) * 1.0)
      && (t == LongerSpeech ==> (|audio.value| as real) >= (sampleRate as real) * 2.0)
  {
    TranscriptionNeedsSpeech(audio, sampleRate);
    if SimpleTranscription(audio, sampleRate) != Silent {
      var a := audio.value;
      LadderNeedsAudio(EstimatedDuration(a, sampleRate), |a| as real, sampleRate as real);
    }
  }

  /** Missing audio, too little audio, or a constant signal all give the empty string. */
  lemma {:induction false} NoSpeechGivesNothing(audio: Option<Audio>, sampleRate: nat)
    requires sampleRate > 0
    requires audio.None? || (|audio.value| as real) < (sampleRate as real) * 0.2
      || (audio.value != [] && forall i :: 0 <= i < |audio.value| ==> audio.value[i] == audio.value[0])
    ensures SimpleTranscription(audio, sampleRate) == Silent
  {
    if audio.Some? && (|audio.value| as real) >= (sampleRate as real) * 0.2 {
      ConstantAudioIsNotSpeech(audio.value, audio.value[0]);
    }
  }
}
