/**
 * The Whisper worker supervisor (`WhisperProcess` in
 * vanta/voice/listener/whisper_process.py): restart bookkeeping for the worker
 * subprocess, one `transcribe` exchange over its pipes, and the classification
 * of the worker's reply line.
 *
 * Whether spawning succeeds, whether the process has exited, whether writing
 * the command succeeds and what (if anything) is read back before the timeout
 * are parameters; so is the clock.
 */
module Supervisor {
  import opened Wrappers
  import opened Json
  import opened Text
  import Payload

  /** More restarts than this within `RestartWindow` seconds are throttled. */
  const MaxRestarts: int := 3
  const RestartWindow: real := 60.0
  /** How long a throttled restart sleeps first. */
  const ThrottleSeconds: real := 5.0
  /** A restart this long after the last successful start resets the count. */
  const StableSeconds: real := 300.0

  /** `process` (present or `None`), `is_running`, `last_restart`, `restart_count`. */
  datatype ProcState = ProcState(hasProcess: bool, isRunning: bool, lastRestart: real, restartCount: int)

  const Initial: ProcState := ProcState(false, false, 0.0, 0)

  /** `process` is set exactly while `is_running` holds. */
  predicate Inv(s: ProcState) {
    s.isRunning == s.hasProcess && s.restartCount >= 0
  }

  /** `_stop_process`: nothing without a process; otherwise the process is dropped and marked not running. */
  function StopStep(s: ProcState): ProcState {
    if !s.hasProcess then s else s.(hasProcess := false, isRunning := false)
  }

  /** `_start_process`: stop any existing process, then spawn; on success stamp `last_restart`. */
  function StartStep(s: ProcState, now: real, spawnOk: bool): ProcState {
    var s1 := StopStep(s);
    if spawnOk then s1.(hasProcess := true, isRunning := true, lastRestart := now)
    else s1.(hasProcess := false, isRunning := false)
  }

  /** Whether `_restart_if_needed` restarted the worker, and whether it throttled first. */
  datatype Restart = NotNeeded | Restarted(throttled: bool)

  /** `_restart_if_needed`; `exited` is what `poll()` reports for an existing process. */
  function RestartStep(s: ProcState, now: real, exited: bool, spawnOk: bool): (ProcState, Restart) {
    if s.hasProcess && !exited then (s, NotNeeded)
    else
      var throttled := now - s.lastRestart < RestartWindow && s.restartCount >= MaxRestarts;
      var t := if throttled then now + ThrottleSeconds else now;
      var s1 := StartStep(StopStep(s), t, spawnOk);
      var s2 := s1.(restartCount := s1.restartCount + 1);
      (if t - s2.lastRestart > StableSeconds then s2.(restartCount := 0) else s2, Restarted(throttled))
  }

  /** What reading the reply line produced: a decoded object, or an exception. */
  datatype ReadResult = Got(text: string, meta: JsonObject) | ReadFailed(message: string)

  /** The string under "text", or "" when there is none. */
  function TextField(fields: JsonObject): string {
    if "text" in fields && fields["text"].JStr? then fields["text"].s else ""
  }

  /**
   * `_read_response`: `line` is the raw reply line and `decoded` what
   * `json.loads` makes of its stripped form (`None` when it is not JSON).
   */
  function ReadResponse(line: string, decoded: Option<Json>): ReadResult {
    if Strip(line) == "" then Got("", ErrorObject("Empty response from worker"))
    else match decoded
      case None => Got("", ErrorObject("Invalid JSON response from worker"))
      case Some(JObj(fields)) =>
        if "error" in fields then Got("", fields) else Got(TextField(fields), fields)
      case Some(_) => ReadFailed("reply is not a JSON object")
  }

  /** What came back from the worker within the timeout. */
  datatype Reply = Line(line: string, decoded: Option<Json>) | TimedOut(message: string)

  /** The outcomes of one `transcribe` exchange that the supervisor does not control. */
  datatype Env = Env(
    exitedBefore: bool, spawnOkBefore: bool,
    writeOk: bool, writeError: string,
    reply: Reply,
    later: real, exitedAfter: bool, spawnOkAfter: bool)

  /** The answer, and the command written to the worker, if any. */
  datatype Exchange = Exchange(text: string, meta: JsonObject, sent: Option<JsonObject>)

  const TimeoutPrefix: string := "Transcription timed out or failed: "

  /** The `transcribe` command carrying the samples. */
  function Command(samples: seq<Payload.Float32Bits>): JsonObject {
    map["action" := JStr("transcribe"), "audio" := JStr(Payload.EncodeSamples(samples))]
  }

  /** `transcribe`: make sure a worker runs, send the command, and read one reply within the timeout. */
  function TranscribeStep(s: ProcState, samples: seq<Payload.Float32Bits>, now: real, env: Env): (ProcState, Exchange) {
    var s1 := RestartStep(s, now, env.exitedBefore, env.spawnOkBefore).0;
    if !s1.isRunning || !s1.hasProcess then (s1, Exchange("", ErrorObject("Transcription process not available"), None))
    else
      var cmd := Command(samples);
      if !env.writeOk then (s1, Exchange("", ErrorObject(env.writeError), Some(cmd)))
      else
        var read := match env.reply
          case Line(line, decoded) => ReadResponse(line, decoded)
          case TimedOut(message) => ReadFailed(message);
        match read
        case Got(t, m) => (s1, Exchange(t, m, Some(cmd)))
        case ReadFailed(message) =>
          var s2 := RestartStep(s1, env.later, env.exitedAfter, env.spawnOkAfter).0;
          (s2, Exchange("", ErrorObject(TimeoutPrefix + message), Some(cmd)))
  }

  lemma InitialInv()
    ensures Inv(Initial)
  {
  }

  /** Stopping without a process changes nothing; afterwards there is never a process, nor (under the invariant) a running flag. */
  lemma StopProcessEffect(s: ProcState)
    ensures !s.hasProcess ==> StopStep(s) == s
    ensures !StopStep(s).hasProcess
    ensures Inv(s) ==> Inv(StopStep(s)) && !StopStep(s).isRunning
  {
  }

  /** A successful start runs a process stamped with the start time; a failed one leaves none and keeps the old stamp. */
  lemma StartProcessEffect(s: ProcState, now: real, spawnOk: bool)
    requires Inv(s)
    ensures Inv(StartStep(s, now, spawnOk))
    ensures spawnOk ==> StartStep(s, now, spawnOk) == s.(hasProcess := true, isRunning := true, lastRestart := now)
    ensures !spawnOk ==> StartStep(s, now, spawnOk) == s.(hasProcess := false, isRunning := false)
  {
  }

  /** A live process is left alone. */
  lemma RestartNotNeededWhileAlive(s: ProcState, now: real, spawnOk: bool)
    requires s.hasProcess
    ensures RestartStep(s, now, false, spawnOk) == (s, NotNeeded)
  {
  }

  /**
   * A missing or exited process is stopped and started again and counted once;
   * the restart throttles exactly when the last start was under a minute ago
   * and three restarts have been counted.
   */
  lemma RestartCounts(s: ProcState, now: real, exited: bool, spawnOk: bool)
    requires Inv(s) && (!s.hasProcess || exited)
    ensures var (t, r) := RestartStep(s, now, exited, spawnOk);
      && r.Restarted?
      && (r.throttled <==> now - s.lastRestart < RestartWindow && s.restartCount >= MaxRestarts)
      && (t.restartCount == s.restartCount + 1 || t.restartCount == 0)
      && (t.hasProcess <==> spawnOk)
      && Inv(t)
  {
  }

  /**
   * The count goes back to zero only when the start failed: a successful start
   * has just stamped `last_restart`, so no time has passed since it.
   */
  lemma ResetOnlyAfterFailedStart(s: ProcState, now: real, exited: bool, spawnOk: bool)
    requires s.restartCount >= 0 && (!s.hasProcess || exited)
    ensures var t := RestartStep(s, now, exited, spawnOk).0;
      t.restartCount == 0 <==> !spawnOk && (if RestartStep(s, now, exited, spawnOk).1.throttled then now + ThrottleSeconds else now) - s.lastRestart > StableSeconds
  {
  }

  /** Every step keeps the invariant. */
  lemma RestartKeepsInv(s: ProcState, now: real, exited: bool, spawnOk: bool)
    requires Inv(s)
    ensures Inv(RestartStep(s, now, exited, spawnOk).0)
  {
  }

  lemma TranscribeKeepsInv(s: ProcState, samples: seq<Payload.Float32Bits>, now: real, env: Env)
    requires Inv(s)
    ensures Inv(TranscribeStep(s, samples, now, env).0)
  {
    RestartKeepsInv(s, now, env.exitedBefore, env.spawnOkBefore);
    RestartKeepsInv(RestartStep(s, now, env.exitedBefore, env.spawnOkBefore).0, env.later, env.exitedAfter, env.spawnOkAfter);
  }

  /** With no running worker after the restart check, nothing is sent and the answer is "Transcription process not available". */
  lemma UnavailableWorker(s: ProcState, samples: seq<Payload.Float32Bits>, now: real, env: Env)
    requires !RestartStep(s, now, env.exitedBefore, env.spawnOkBefore).0.isRunning
    ensures TranscribeStep(s, samples, now, env).1 == Exchange("", map["error" := JStr("Transcription process not available")], None)
  {
  }

  /** The command sent carries the samples in a form the worker decodes back to exactly those samples. */
  lemma CommandCarriesSamples(s: ProcState, samples: seq<Payload.Float32Bits>, now: real, env: Env)
    requires TranscribeStep(s, samples, now, env).1.sent.Some?
    ensures var cmd := TranscribeStep(s, samples, now, env).1.sent.value;
      && cmd["action"] == JStr("transcribe")
      && cmd["audio"].JStr?
      && Payload.DecodeSamples(cmd["audio"].s) == Some(samples)
  {
    Payload.PayloadRoundTrip(samples);
  }

  /**
   * A timeout (or a failed read) answers with an error starting "Transcription
   * timed out or failed" and runs the restart check again, which restarts the
   * worker only if it has exited.
   */
  lemma TimeoutRestartsOnlyExited(s: ProcState, samples: seq<Payload.Float32Bits>, now: real, env: Env)
    requires env.reply.TimedOut? && env.writeOk
    requires RestartStep(s, now, env.exitedBefore, env.spawnOkBefore).0.isRunning
    requires Inv(s)
    ensures var (t, x) := TranscribeStep(s, samples, now, env);
      && x.text == ""
      && x.meta.Keys == {"error"}
      && x.meta["error"].JStr?
      && TimeoutPrefix <= x.meta["error"].s
      && (!env.exitedAfter ==> t == RestartStep(s, now, env.exitedBefore, env.spawnOkBefore).0)
  {
    RestartKeepsInv(s, now, env.exitedBefore, env.spawnOkBefore);
  }

  /** A reply line that strips to nothing is the "Empty response from worker" error. */
  lemma BlankReply(line: string, decoded: Option<Json>)
    requires IsBlank(line)
    ensures ReadResponse(line, decoded) == Got("", map["error" := JStr("Empty response from worker")])
  {
    StripEmptyIffBlank(line);
  }

  /** A non-blank line that is not JSON is the "Invalid JSON response from worker" error. */
  lemma UnparsableReply(line: string)
    requires !IsBlank(line)
    ensures ReadResponse(line, None) == Got("", map["error" := JStr("Invalid JSON response from worker")])
  {
    StripEmptyIffBlank(line);
  }

  /**
   * A decoded object is passed on whole as metadata; its text is returned
   * only when it carries no "error" key.
   */
  lemma ObjectReply(line: string, fields: JsonObject)
    requires !IsBlank(line)
    ensures ReadResponse(line, Some(JObj(fields))) == Got(if "error" in fields then "" else TextField(fields), fields)
  {
    StripEmptyIffBlank(line);
  }

  /** The supervisor, with the fields its methods update in place. */
  class WhisperProcess {
    var hasProcess: bool
    var isRunning: bool
    var lastRestart: real
    var restartCount: int

    function State(): ProcState
      reads this
    {
      ProcState(hasProcess, isRunning, lastRestart, restartCount)
    }

    /** `__init__`: no process, nothing counted, then a first start. */
    constructor(now: real, spawnOk: bool)
      ensures State() == StartStep(Initial, now, spawnOk)
    {
      hasProcess := false;
      isRunning := false;
      lastRestart := 0.0;
      restartCount := 0;
      new;
      StartProcess(now, spawnOk);
    }

    method StopProcess()
      modifies this
      ensures State() == StopStep(old(State()))
    {
      if !hasProcess {
        return;
      }
      hasProcess := false;
      isRunning := false;
    }

    method StartProcess(now: real, spawnOk: bool)
      modifies this
      ensures State() == StartStep(old(State()), now, spawnOk)
    {
      if hasProcess {
        StopProcess();
      }
      if spawnOk {
        hasProcess := true;
        isRunning := true;
        lastRestart := now;
      } else {
        isRunning := false;
        hasProcess := false;
      }
    }

    method RestartIfNeeded(now: real, exited: bool, spawnOk: bool) returns (r: Restart)
      modifies this
      ensures (State(), r) == RestartStep(old(State()), now, exited, spawnOk)
    {
      if hasProcess && !exited {
        return NotNeeded;
      }
      var clock := now;
      var throttled := clock - lastRestart < RestartWindow && restartCount >= MaxRestarts;
      if throttled {
        clock := clock + ThrottleSeconds;
      }
      StopProcess();
      StartProcess(clock, spawnOk);
      restartCount := restartCount + 1;
      if clock - lastRestart > StableSeconds {
        restartCount := 0;
      }
      r := Restarted(throttled);
    }

    method Transcribe(samples: seq<Payload.Float32Bits>, now: real, env: Env) returns (x: Exchange)
      modifies this
      ensures (State(), x) == TranscribeStep(old(State()), samples, now, env)
    {
      var _ := RestartIfNeeded(now, env.exitedBefore, env.spawnOkBefore);
      if !isRunning || !hasProcess {
        return Exchange("", ErrorObject("Transcription process not available"), None);
      }
      var cmd := Command(samples);
      if !env.writeOk {
        return Exchange("", ErrorObject(env.writeError), Some(cmd));
      }
      var read: ReadResult;
      match env.reply {
        case Line(line, decoded) => read := ReadResponse(line, decoded);
        case TimedOut(message) => read := ReadFailed(message);
      }
      match read {
        case Got(t, m) =>
          x := Exchange(t, m, Some(cmd));
        case ReadFailed(message) =>
          var _ := RestartIfNeeded(env.later, env.exitedAfter, env.spawnOkAfter);
          x := Exchange("", ErrorObject(TimeoutPrefix + message), Some(cmd));
      }
    }
  }
}
