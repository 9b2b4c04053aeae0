/**
 * The system status tracker: the operational state of the assistant, when
 * it last changed, when anything last happened, the last error message and
 * three counters (transcriptions, responses, errors).  Each call reads the
 * clock once; that reading is the parameter `now`.
 */
module Status {
  import opened Wrappers
  import opened Json

  datatype SystemState = Initializing | Starting | Ready | Processing | Speaking | Error | ShuttingDown | Shutdown

  /** `SystemState.name`. */
  function StateName(st: SystemState): string {
    match st
    case Initializing => "INITIALIZING"
    case Starting => "STARTING"
    case Ready => "READY"
    case Processing => "PROCESSING"
    case Speaking => "SPEAKING"
    case Error => "ERROR"
    case ShuttingDown => "SHUTTING_DOWN"
    case Shutdown => "SHUTDOWN"
  }

  /** Distinct states have distinct names. */
  lemma StateNamesDistinct(a: SystemState, b: SystemState)
    requires a != b
    ensures StateName(a) != StateName(b)
  {
  }

  datatype Metrics = Metrics(transcriptions: nat, responses: nat, errors: nat, uptimeStart: real)

  datatype StatusState = StatusState(
    state: SystemState,
    stateChangedAt: real,
    lastActivity: real,
    error: Option<string>,
    metrics: Metrics)

  /** The tracker as `__init__` leaves it. */
  function Initial(now: real): (s: StatusState)
    ensures s.state == Initializing && s.error == None
    ensures s.metrics.transcriptions == 0 && s.metrics.responses == 0 && s.metrics.errors == 0
  {
    StatusState(Initializing, now, now, None, Metrics(0, 0, 0, now))
  }

  /** `set_state`. */
  function SetStateStep(s: StatusState, st: SystemState, now: real): StatusState {
    if st == s.state then s
    else
      var m := if st == Error then s.metrics.(errors := s.metrics.errors + 1) else s.metrics;
      s.(state := st, stateChangedAt := now, lastActivity := now, metrics := m)
  }

  /** `set_error`. */
  function SetErrorStep(s: StatusState, message: string, now: real): StatusState {
    SetStateStep(s.(error := Some(message)), Error, now)
  }

  /** `set_speaking`. */
  function SetSpeakingStep(s: StatusState, now: real): StatusState {
    var t := SetStateStep(s, Speaking, now);
    t.(metrics := t.metrics.(responses := t.metrics.responses + 1))
  }

  /** `increment_transcription`. */
  function IncrementTranscriptionStep(s: StatusState, now: real): StatusState {
    s.(metrics := s.metrics.(transcriptions := s.metrics.transcriptions + 1), lastActivity := now)
  }

  /** Setting the current state again changes nothing, not even the timestamps or counters. */
  lemma SameStateIsNoOp(s: StatusState, now: real)
    ensures SetStateStep(s, s.state, now) == s
  {
  }

  /**
   * A real change records the new state and refreshes both timestamps; the
   * error counter goes up by one exactly when the new state is ERROR, and the
   * other counters and the error message stay.
   */
  lemma StateChange(s: StatusState, st: SystemState, now: real)
    requires st != s.state
    ensures var t := SetStateStep(s, st, now);
      t.state == st && t.stateChangedAt == now && t.lastActivity == now && t.error == s.error &&
      t.metrics.errors == s.metrics.errors + (if st == Error then 1 else 0) &&
      t.metrics.transcriptions == s.metrics.transcriptions && t.metrics.responses == s.metrics.responses &&
      t.metrics.uptimeStart == s.metrics.uptimeStart
  {
  }

  /** `set_error` while already in ERROR stores the message and counts nothing. */
  lemma ErrorWhileInError(s: StatusState, message: string, now: real)
    requires s.state == Error
    ensures SetErrorStep(s, message, now) == s.(error := Some(message))
  {
  }

  /** `set_error` from another state enters ERROR and counts one error. */
  lemma ErrorFromElsewhere(s: StatusState, message: string, now: real)
    requires s.state != Error
    ensures var t := SetErrorStep(s, message, now);
      t.state == Error && t.error == Some(message) && t.metrics.errors == s.metrics.errors + 1
  {
  }

  /** Every `set_speaking` counts a response, even when already SPEAKING. */
  lemma SpeakingCountsEveryCall(s: StatusState, now: real)
    ensures var t := SetSpeakingStep(s, now);
      t.state == Speaking && t.metrics.responses == s.metrics.responses + 1 &&
      t.metrics.errors == s.metrics.errors && t.metrics.transcriptions == s.metrics.transcriptions
    ensures s.state == Speaking ==> SetSpeakingStep(s, now) == s.(metrics := s.metrics.(responses := s.metrics.responses + 1))
  {
  }

  /** `increment_transcription` counts one transcription and refreshes only the activity time. */
  lemma TranscriptionCounted(s: StatusState, now: real)
    ensures var t := IncrementTranscriptionStep(s, now);
      t.metrics.transcriptions == s.metrics.transcriptions + 1 && t.lastActivity == now &&
      t.state == s.state && t.stateChangedAt == s.stateChangedAt && t.error == s.error &&
      t.metrics.responses == s.metrics.responses && t.metrics.errors == s.metrics.errors
  {
  }

  /** Whoever is in ERROR has been counted as an error at least once. */
  predicate Inv(s: StatusState) {
    s.state == Error ==> s.metrics.errors > 0
  }

  /** The calls that update the tracker. */
  datatype Call = SetStateCall(st: SystemState, at: real) | SetErrorCall(message: string, at: real)
                | SetSpeakingCall(at: real) | TranscriptionCall(at: real)

  function Apply(s: StatusState, c: Call): StatusState {
    match c
    case SetStateCall(st, at) => SetStateStep(s, st, at)
    case SetErrorCall(message, at) => SetErrorStep(s, message, at)
    case SetSpeakingCall(at) => SetSpeakingStep(s, at)
    case TranscriptionCall(at) => IncrementTranscriptionStep(s, at)
  }

  function Replay(s: StatusState, calls: seq<Call>): StatusState {
    if calls == [] then s else Apply(Replay(s, calls[..|calls| - 1]), calls[|calls| - 1])
  }

  function CountSpeaking(calls: seq<Call>): nat {
    if calls == [] then 0 else CountSpeaking(calls[..|calls| - 1]) + (if calls[|calls| - 1].SetSpeakingCall? then 1 else 0)
  }

  function CountTranscriptions(calls: seq<Call>): nat {
    if calls == [] then 0 else CountTranscriptions(calls[..|calls| - 1]) + (if calls[|calls| - 1].TranscriptionCall? then 1 else 0)
  }

  lemma InitialInv(now: real)
    ensures Inv(Initial(now))
  {
  }

  /** Every call keeps the invariant. */
  lemma ApplyKeepsInv(s: StatusState, c: Call)
    requires Inv(s)
    ensures Inv(Apply(s, c))
  {
  }

  /**
   * Starting from `__init__`, the response counter is the number of
   * `set_speaking` calls and the transcription counter the number of
   * `increment_transcription` calls, and the invariant holds throughout.
   */
  lemma {:induction false} CountersCountCalls(now: real, calls: seq<Call>)
    ensures var s := Replay(Initial(now), calls);
      s.metrics.responses == CountSpeaking(calls) &&
      s.metrics.transcriptions == CountTranscriptions(calls) &&
      Inv(s)
  {
    if calls != [] {
      CountersCountCalls(now, calls[..|calls| - 1]);
      ApplyKeepsInv(Replay(Initial(now), calls[..|calls| - 1]), calls[|calls| - 1]);
    }
  }

  /** `metrics`: the counters plus uptime, current state, time in state and idle time. */
  function MetricsReport(s: StatusState, now: real): (m: JsonObject)
    ensures m.Keys == {"transcriptions", "responses", "errors", "uptime_start", "uptime", "current_state", "time_in_state", "idle_time"}
  {
    map["transcriptions" := JInt(s.metrics.transcriptions), "responses" := JInt(s.metrics.responses),
        "errors" := JInt(s.metrics.errors), "uptime_start" := JFloat(s.metrics.uptimeStart),
        "uptime" := JFloat(now - s.metrics.uptimeStart), "current_state" := JStr(StateName(s.state)),
        "time_in_state" := JFloat(now - s.stateChangedAt), "idle_time" := JFloat(now - s.lastActivity)]
  }

  /** `report`. */
  function Report(s: StatusState, now: real): (r: JsonObject)
    ensures r.Keys == {"state", "uptime", "idle_time", "metrics", "error"}
  {
    map["state" := JStr(StateName(s.state)), "uptime" := JFloat(now - s.metrics.uptimeStart),
        "idle_time" := JFloat(now - s.lastActivity), "metrics" := JObj(MetricsReport(s, now)),
        "error" := match s.error case None => JNull case Some(e) => JStr(e)]
  }

  /**
   * The report identifies the state and carries the counters and the last
   * error; a fresh tracker reports zero uptime and no error.
   */
  lemma ReportReflectsState(s: StatusState, t: StatusState, now: real)
    requires Report(s, now) == Report(t, now)
    ensures s.state == t.state && s.error == t.error && s.metrics == t.metrics
  {
    var ms := Report(s, now)["metrics"].fields;
    assert ms == MetricsReport(s, now) && ms == MetricsReport(t, now);
    assert ms["uptime_start"] == JFloat(s.metrics.uptimeStart) == JFloat(t.metrics.uptimeStart);
    if s.state != t.state {
      StateNamesDistinct(s.state, t.state);
    }
  }

  lemma FreshReport(now: real)
    ensures Report(Initial(now), now)["uptime"] == JFloat(0.0)
    ensures Report(Initial(now), now)["error"] == JNull
    ensures Report(Initial(now), now)["state"] == JStr("INITIALIZING")
  {
  }

  class SystemStatus {
    var state: SystemState
    var stateChangedAt: real
    var lastActivity: real
    var error: Option<string>
    var metrics: Metrics

    constructor(now: real)
      ensures State() == Initial(now)
    {
      state := Initializing;
      stateChangedAt := now;
      lastActivity := now;
      error := None;
      metrics := Metrics(0, 0, 0, now);
    }

    function State(): StatusState
      reads this
    {
      StatusState(state, stateChangedAt, lastActivity, error, metrics)
    }

    method SetState(st: SystemState, now: real)
      modifies this
      ensures State() == SetStateStep(old(State()), st, now)
    {
      if st == state {
        return;
      }
      state := st;
      stateChangedAt := now;
      lastActivity := now;
      if st == Error {
        metrics := metrics.(errors := metrics.errors + 1);
      }
    }

    method SetError(message: string, now: real)
      modifies this
      ensures State() == SetErrorStep(old(State()), message, now)
    {
      error := Some(message);
      SetState(Error, now);
    }

    method SetSpeaking(now: real)
      modifies this
      ensures State() == SetSpeakingStep(old(State()), now)
    {
      SetState(Speaking, now);
      metrics := metrics.(responses := metrics.responses + 1);
    }

    method IncrementTranscription(now: real)
      modifies this
      ensures State() == IncrementTranscriptionStep(old(State()), now)
    {
      metrics := metrics.(transcriptions := metrics.transcriptions + 1);
      lastActivity := now;
    }

    function GetReport(now: real): JsonObject
      reads this
    {
      Report(State(), now)
    }
  }
}
