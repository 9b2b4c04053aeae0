/**
 * The transcription manager's Normal/Fallback controller (`TranscriptionManager`
 * in vanta/voice/listener/transcription_manager.py).
 *
 * Segments go to the Whisper worker unless the manager is in fallback mode or
 * the segment is under half a second, in which case the basic heuristic of
 * `BasicStt` answers.  Failed primary calls are counted; `max_failures` of
 * them switch to fallback, and recovery is retried after `retry_delay` once
 * `failure_backoff` has passed since the last failure.
 *
 * The clock, the worker's reply and whether building a new worker succeeds
 * are parameters of each call.
 */
module Manager {
  import opened Json
  import BasicStt
  import opened Wrappers

  /** The `stt` configuration section, with its defaults in `DefaultConfig`. */
  datatype Config = Config(
    primaryService: string,
    maxFailures: int,
    failureBackoff: real,
    retryDelay: real,
    timeoutShort: real,
    timeoutStandard: real,
    sampleRate: nat)

  function DefaultConfig(): (c: Config)
    ensures c.maxFailures == 3 && c.failureBackoff == 300.0 && c.retryDelay == 60.0
    ensures c.timeoutShort < c.timeoutStandard && c.sampleRate > 0
  {
    Config("whisper", 3, 300.0, 60.0, 5.0, 10.0, 16000)
  }

  /** The controller's fields; `hasWorker` says whether `whisper_process` is set. */
  datatype MgrState = MgrState(
    failures: int,
    lastFailure: real,
    lastRetry: real,
    lastTranscription: real,
    inFallback: bool,
    hasWorker: bool)

  const Initial: MgrState := MgrState(0, 0.0, 0.0, 0.0, false, false)

  /** What the worker's `transcribe` call did: replied with text and metadata, or raised. */
  datatype WorkerReply = Replied(text: string, meta: JsonObject) | Threw(message: string)

  /** Which backend produced the answer of a `transcribe` call. */
  datatype Route =
    | RejectedTooShort
    | BasicOnly
    | Primary(timeout: real)
    | PrimaryThenBasic(timeout: real)

  datatype Answer = Answer(text: string, meta: JsonObject, route: Route)

  /** Shortest segment that is transcribed at all. */
  const MinSeconds: real := 0.3
  /** Shorter segments go straight to the basic heuristic. */
  const PrimaryMinSeconds: real := 0.5
  /** Shorter segments get the short primary timeout. */
  const ShortTimeoutBelow: real := 1.0

  /** `len(audio) / sample_rate`. */
  function Duration(audio: BasicStt.Audio, c: Config): real
    requires c.sampleRate > 0
  {
    |audio| as real / c.sampleRate as real
  }

  /** `start`: create the worker when the primary service is Whisper; fall back when that raises. */
  function StartStep(s: MgrState, c: Config, workerOk: bool): MgrState {
    if c.primaryService != "whisper" then s
    else if workerOk then s.(hasWorker := true)
    else s.(inFallback := true)
  }

  /** `_handle_failure`. */
  function FailureStep(s: MgrState, c: Config, now: real): MgrState {
    var failures := s.failures + 1;
    s.(failures := failures, lastFailure := now, inFallback := if failures >= c.maxFailures then true else s.inFallback)
  }

  /** `_attempt_recovery`: always stamps the retry; rebuilds the worker only once the backoff has passed. */
  function RecoveryStep(s: MgrState, c: Config, now: real, workerOk: bool): MgrState {
    var s1 := s.(lastRetry := now);
    if now - s1.lastFailure < c.failureBackoff then s1
    else if workerOk then s1.(hasWorker := true, failures := 0, inFallback := false)
    else s1.(failures := 0)
  }

  /** The timeout `_transcribe_with_primary` gives the worker. */
  function PrimaryTimeout(c: Config, duration: real): real {
    if duration < ShortTimeoutBelow then c.timeoutShort else c.timeoutStandard
  }

  /** `_transcribe_with_primary`: the worker's answer, or an error object when there is no worker or it raised. */
  function PrimaryAnswer(s: MgrState, reply: WorkerReply): (string, JsonObject) {
    if !s.hasWorker then ("", ErrorObject("Whisper process not initialized"))
    else match reply
      case Replied(t, m) => (t, m)
      case Threw(msg) => ("", ErrorObject(msg))
  }

  /** A primary answer counts as a success when it has text or carries no error. */
  predicate PrimarySucceeded(text: string, meta: JsonObject) {
    text != "" || "error" !in meta
  }

  /** `_transcribe_with_basic`. */
  function BasicAnswer(audio: BasicStt.Audio, c: Config): (string, JsonObject)
    requires c.sampleRate > 0
  {
    (BasicStt.SimpleTranscription(Some(audio), c.sampleRate), map["backend" := JStr("basic"), "confidence" := JFloat(0.5)])
  }

  /** The state once the call is stamped and recovery, if due, has been attempted. */
  function Prepared(s: MgrState, c: Config, now: real, workerOk: bool): MgrState {
    var s1 := s.(lastTranscription := now);
    if s1.inFallback && now - s1.lastRetry > c.retryDelay then RecoveryStep(s1, c, now, workerOk) else s1
  }

  /**
   * `transcribe`: the new state and the answer.  `now` is the clock when the
   * call starts; `failedAt` is the clock `_handle_failure` reads once the
   * worker has answered, used only when the primary call fails.
   */
  function TranscribeStep(s: MgrState, c: Config, audio: BasicStt.Audio, now: real, failedAt: real, workerOk: bool, reply: WorkerReply): (MgrState, Answer)
    requires c.sampleRate > 0
  {
    var duration := Duration(audio, c);
    if duration < MinSeconds then (s, Answer("", ErrorObject("Audio too short"), RejectedTooShort))
    else
      var s2 := Prepared(s, c, now, workerOk);
      if s2.inFallback || duration < PrimaryMinSeconds then
        var (t, m) := BasicAnswer(audio, c);
        (s2, Answer(t, m, BasicOnly))
      else
        var timeout := PrimaryTimeout(c, duration);
        var (t, m) := PrimaryAnswer(s2, reply);
        if PrimarySucceeded(t, m) then (s2.(failures := 0), Answer(t, m, Primary(timeout)))
        else
          var (bt, bm) := BasicAnswer(audio, c);
          (FailureStep(s2, c, failedAt), Answer(bt, bm, PrimaryThenBasic(timeout)))
  }

  /** The controller's invariant: a positive failure count at the threshold means fallback. */
  predicate Inv(s: MgrState, c: Config) {
    s.failures >= 0 && (s.failures > 0 && s.failures >= c.maxFailures ==> s.inFallback)
  }

  lemma InitialInv(c: Config)
    ensures Inv(Initial, c) && Inv(StartStep(Initial, c, true), c) && Inv(StartStep(Initial, c, false), c)
  {
  }

  /** Every transcription keeps the invariant. */
  lemma TranscribeKeepsInv(s: MgrState, c: Config, audio: BasicStt.Audio, now: real, failedAt: real, workerOk: bool, reply: WorkerReply)
    requires c.sampleRate > 0 && Inv(s, c)
    ensures Inv(TranscribeStep(s, c, audio, now, failedAt, workerOk, reply).0, c)
  {
  }

  /** Audio under 0.3 s is answered with "Audio too short" and leaves every field untouched. */
  lemma TooShortChangesNothing(s: MgrState, c: Config, audio: BasicStt.Audio, now: real, failedAt: real, workerOk: bool, reply: WorkerReply)
    requires c.sampleRate > 0 && (|audio| as real) < MinSeconds * c.sampleRate as real
    ensures TranscribeStep(s, c, audio, now, failedAt, workerOk, reply) == (s, Answer("", map["error" := JStr("Audio too short")], RejectedTooShort))
  {
    assert Duration(audio, c) < MinSeconds by {
      DivBelow(|audio| as real, c.sampleRate as real, MinSeconds);
    }
  }

  lemma DivBelow(x: real, y: real, k: real)
    requires y > 0.0 && x < k * y
    ensures x / y < k
  {
    assert x / y - k == (x - k * y) / y;
  }

  /**
   * In fallback mode (after any recovery attempt), or for segments under half a
   * second, the basic heuristic answers and the failure count stays as it was.
   */
  lemma BasicRouting(s: MgrState, c: Config, audio: BasicStt.Audio, now: real, failedAt: real, workerOk: bool, reply: WorkerReply)
    requires c.sampleRate > 0 && Duration(audio, c) >= MinSeconds
    requires Prepared(s, c, now, workerOk).inFallback || Duration(audio, c) < PrimaryMinSeconds
    ensures var (t, a) := TranscribeStep(s, c, audio, now, failedAt, workerOk, reply);
      && a.route == BasicOnly
      && (a.text, a.meta) == BasicAnswer(audio, c)
      && t == Prepared(s, c, now, workerOk)
      && t.failures == Prepared(s, c, now, workerOk).failures
  {
  }

  /** The worker is consulted exactly when the manager is not in fallback and the segment lasts at least half a second. */
  lemma PrimaryRouting(s: MgrState, c: Config, audio: BasicStt.Audio, now: real, failedAt: real, workerOk: bool, reply: WorkerReply)
    requires c.sampleRate > 0 && Duration(audio, c) >= MinSeconds
    ensures var a := TranscribeStep(s, c, audio, now, failedAt, workerOk, reply).1;
      (a.route.Primary? || a.route.PrimaryThenBasic?) <==> !Prepared(s, c, now, workerOk).inFallback && Duration(audio, c) >= PrimaryMinSeconds
    ensures var a := TranscribeStep(s, c, audio, now, failedAt, workerOk, reply).1;
      (a.route.Primary? || a.route.PrimaryThenBasic?) ==>
        a.route.timeout == (if Duration(audio, c) < ShortTimeoutBelow then c.timeoutShort else c.timeoutStandard)
  {
  }

  /** A primary answer with text, or without an error, is returned as is and clears the failure count. */
  lemma SuccessResetsFailures(s: MgrState, c: Config, audio: BasicStt.Audio, now: real, failedAt: real, workerOk: bool, reply: WorkerReply)
    requires c.sampleRate > 0 && Duration(audio, c) >= PrimaryMinSeconds
    requires !Prepared(s, c, now, workerOk).inFallback
    requires PrimarySucceeded(PrimaryAnswer(Prepared(s, c, now, workerOk), reply).0, PrimaryAnswer(Prepared(s, c, now, workerOk), reply).1)
    ensures var (t, a) := TranscribeStep(s, c, audio, now, failedAt, workerOk, reply);
      && t == Prepared(s, c, now, workerOk).(failures := 0)
      && (a.text, a.meta) == PrimaryAnswer(Prepared(s, c, now, workerOk), reply)
      && a.route.Primary?
  {
  }

  /** Empty text without an error is a success, not a failure. */
  lemma EmptyTextWithoutErrorSucceeds(meta: JsonObject)
    requires "error" !in meta
    ensures PrimarySucceeded("", meta)
  {
  }

  /**
   * A failed primary call (an error answer, a raised exception, or no worker)
   * adds exactly one failure, stamps the failure time read after the worker
   * answered, and returns the basic heuristic's answer.
   */
  lemma FailureFallsThrough(s: MgrState, c: Config, audio: BasicStt.Audio, now: real, failedAt: real, workerOk: bool, reply: WorkerReply)
    requires c.sampleRate > 0 && Duration(audio, c) >= PrimaryMinSeconds
    requires !Prepared(s, c, now, workerOk).inFallback
    requires !PrimarySucceeded(PrimaryAnswer(Prepared(s, c, now, workerOk), reply).0, PrimaryAnswer(Prepared(s, c, now, workerOk), reply).1)
    ensures var (t, a) := TranscribeStep(s, c, audio, now, failedAt, workerOk, reply);
      && t.failures == Prepared(s, c, now, workerOk).failures + 1
      && t.lastFailure == failedAt
      && (t.inFallback <==> t.failures >= c.maxFailures)
      && (a.text, a.meta) == BasicAnswer(audio, c)
      && a.route.PrimaryThenBasic?
  {
  }

  /** Without a worker the primary answer is the "not initialized" error, which counts as a failure. */
  lemma NoWorkerIsFailure(s: MgrState, reply: WorkerReply)
    requires !s.hasWorker
    ensures PrimaryAnswer(s, reply) == ("", map["error" := JStr("Whisper process not initialized")])
    ensures !PrimarySucceeded(PrimaryAnswer(s, reply).0, PrimaryAnswer(s, reply).1)
  {
  }

  /** A worker that raises yields an error answer, which counts as a failure. */
  lemma ThrownIsFailure(s: MgrState, message: string)
    ensures !PrimarySucceeded(PrimaryAnswer(s, Threw(message)).0, PrimaryAnswer(s, Threw(message)).1)
  {
  }

  /** Recovery is attempted exactly when in fallback and more than `retry_delay` has passed since the last retry. */
  lemma RecoveryGate(s: MgrState, c: Config, now: real, workerOk: bool)
    ensures Prepared(s, c, now, workerOk).lastRetry == (if s.inFallback && now - s.lastRetry > c.retryDelay then now else s.lastRetry)
    ensures !(s.inFallback && now - s.lastRetry > c.retryDelay) ==> Prepared(s, c, now, workerOk) == s.(lastTranscription := now)
  {
  }

  /**
   * A recovery attempt always stamps the retry time; before `failure_backoff`
   * has passed it changes nothing else, so the manager stays in fallback.
   * After it, the count is cleared, and fallback ends iff the new worker was
   * built.
   */
  lemma RecoveryOutcome(s: MgrState, c: Config, now: real, workerOk: bool)
    requires s.inFallback
    ensures RecoveryStep(s, c, now, workerOk).lastRetry == now
    ensures now - s.lastFailure < c.failureBackoff ==> RecoveryStep(s, c, now, workerOk) == s.(lastRetry := now)
    ensures now - s.lastFailure >= c.failureBackoff ==>
      RecoveryStep(s, c, now, workerOk).failures == 0 &&
      (RecoveryStep(s, c, now, workerOk).inFallback <==> !workerOk)
  {
  }

  /** Apply one transcription per call, each with its own clock, worker outcome and reply. */
  datatype Call = Call(audio: BasicStt.Audio, now: real, failedAt: real, workerOk: bool, reply: WorkerReply)

  function Replay(s: MgrState, c: Config, calls: seq<Call>): MgrState
    requires c.sampleRate > 0
    decreases |calls|
  {
    if calls == [] then s
    else Replay(TranscribeStep(s, c, calls[0].audio, calls[0].now, calls[0].failedAt, calls[0].workerOk, calls[0].reply).0, c, calls[1..])
  }

  /** A call long enough for the worker whose answer is an error: the worker raised, or replied with no text and an "error" key. */
  predicate FailingCall(c: Config, call: Call)
    requires c.sampleRate > 0
  {
    Duration(call.audio, c) >= PrimaryMinSeconds &&
    (call.reply.Threw? || (call.reply.Replied? && call.reply.text == "" && "error" in call.reply.meta))
  }

  /**
   * Starting outside fallback with `f` failures, consecutive failing calls
   * raise the count by one each and put the manager into fallback exactly when
   * the count reaches `max_failures`.
   */
  lemma {:induction false} FailuresEnterFallback(s: MgrState, c: Config, calls: seq<Call>)
    requires c.sampleRate > 0
    requires s.failures >= 0 && !s.inFallback && s.failures + |calls| <= c.maxFailures
    requires forall i :: 0 <= i < |calls| ==> FailingCall(c, calls[i])
    ensures Replay(s, c, calls).failures == s.failures + |calls|
    ensures Replay(s, c, calls).inFallback <==> calls != [] && s.failures + |calls| == c.maxFailures
    decreases |calls|
  {
    if calls != [] {
      assert FailingCall(c, calls[0]);
      FailingCallCounts(s, c, calls[0]);
      var next := FailureStep(s.(lastTranscription := calls[0].now), c, calls[0].failedAt);
      if |calls| == 1 {
        assert calls[1..] == [];
      } else {
        assert forall i :: 0 <= i < |calls[1..]| ==> FailingCall(c, calls[1..][i]) by {
          forall i | 0 <= i < |calls[1..]| ensures FailingCall(c, calls[1..][i]) {
            assert calls[1..][i] == calls[i + 1];
          }
        }
        FailuresEnterFallback(next, c, calls[1..]);
      }
    }
  }

  /** Outside fallback, a failing call stamps the clock and then counts one failure. */
  lemma FailingCallCounts(m: MgrState, c: Config, call: Call)
    requires c.sampleRate > 0 && !m.inFallback && FailingCall(c, call)
    ensures TranscribeStep(m, c, call.audio, call.now, call.failedAt, call.workerOk, call.reply).0 ==
            FailureStep(m.(lastTranscription := call.now), c, call.failedAt)
  {
    assert Duration(call.audio, c) >= MinSeconds;
  }

  /** With `max_failures` 2, two failed calls from a fresh start put the manager into fallback. */
  lemma TwoFailuresWithLimitTwo(c: Config, a: Call, b: Call)
    requires c.sampleRate > 0 && c.maxFailures == 2
    requires FailingCall(c, a) && FailingCall(c, b)
    ensures Replay(Initial, c, [a, b]).inFallback
  {
    assert [a, b][0] == a && [a, b][1] == b;
    FailuresEnterFallback(Initial, c, [a, b]);
  }

  /** The manager, with the fields `transcribe` and its helpers update in place. */
  class TranscriptionManager {
    var failures: int
    var lastFailure: real
    var lastRetry: real
    var lastTranscription: real
    var inFallback: bool
    var hasWorker: bool
    const config: Config

    function State(): MgrState
      reads this
    {
      MgrState(failures, lastFailure, lastRetry, lastTranscription, inFallback, hasWorker)
    }

    constructor(config: Config)
      ensures State() == Initial && this.config == config
    {
      this.config := config;
      failures := 0;
      lastFailure := 0.0;
      lastRetry := 0.0;
      lastTranscription := 0.0;
      inFallback := false;
      hasWorker := false;
    }

    method Start(workerOk: bool)
      modifies this
      ensures State() == StartStep(old(State()), config, workerOk)
    {
      if config.primaryService == "whisper" {
        if workerOk {
          hasWorker := true;
        } else {
          inFallback := true;
        }
      }
    }

    method HandleFailure(now: real)
      modifies this
      ensures State() == FailureStep(old(State()), config, now)
    {
      failures := failures + 1;
      lastFailure := now;
      if failures >= config.maxFailures {
        inFallback := true;
      }
    }

    method AttemptRecovery(now: real, workerOk: bool)
      modifies this
      ensures State() == RecoveryStep(old(State()), config, now, workerOk)
    {
      lastRetry := now;
      if now - lastFailure < config.failureBackoff {
        return;
      }
      if workerOk {
        hasWorker := true;
        failures := 0;
        inFallback := false;
      } else {
        failures := 0;
      }
    }

    method Transcribe(audio: BasicStt.Audio, now: real, failedAt: real, workerOk: bool, reply: WorkerReply) returns (a: Answer)
      requires config.sampleRate > 0
      modifies this
      ensures (State(), a) == TranscribeStep(old(State()), config, audio, now, failedAt, workerOk, reply)
    {
      var duration := |audio| as real / config.sampleRate as real;
      if duration < MinSeconds {
        return Answer("", ErrorObject("Audio too short"), RejectedTooShort);
      }
      lastTranscription := now;
      if inFallback && now - lastRetry > config.retryDelay {
        AttemptRecovery(now, workerOk);
      }
      if inFallback || duration < PrimaryMinSeconds {
        var (t, m) := BasicAnswer(audio, config);
        return Answer(t, m, BasicOnly);
      }
      var timeout := PrimaryTimeout(config, duration);
      var (t, m) := PrimaryAnswer(State(), reply);
      if t != "" || "error" !in m {
        failures := 0;
        return Answer(t, m, Primary(timeout));
      }
      HandleFailure(failedAt);
      var (bt, bm) := BasicAnswer(audio, config);
      a := Answer(bt, bm, PrimaryThenBasic(timeout));
    }
  }
}
