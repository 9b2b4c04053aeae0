/**
 * The speak decider: on each processed transcription it scores whether the
 * assistant should answer and, if the score clears the base threshold,
 * publishes SHOULD_RESPOND.  The clock (`now`) and the random draw of
 * `random.random()` (`draw`, in [0, 1)) are parameters.
 */
module Decider {
  import opened Wrappers
  import opened Json
  import opened Text
  import opened Cues

  /** The `speak_decision` thresholds. */
  datatype Config = Config(baseThreshold: real, interruptPenalty: real, recencyPenalty: real)

  function DefaultConfig(): (c: Config)
    ensures c.baseThreshold == 0.6 && c.interruptPenalty == 0.3 && c.recencyPenalty == 0.1
  {
    Config(0.6, 0.3, 0.1)
  }

  /** Seconds after the assistant's last response during which the recency penalty applies. */
  const RecencyWindow: real := 5.0
  /** The boost for a question and, separately, for a greeting. */
  const ContentBoost: real := 0.2

  /** `entry.get("is_user", False)`, read for its truth value. */
  predicate IsUser(entry: JsonObject) {
    "is_user" in entry && Truthy(entry["is_user"])
  }

  /** The position of the most recent user entry, if there is one. */
  function LatestUser(context: seq<JsonObject>): (k: Option<nat>)
    ensures k.Some? ==> (k.value < |context| && IsUser(context[k.value]) &&
                         forall j :: k.value < j < |context| ==> !IsUser(context[j]))
    ensures k.None? ==> forall j :: 0 <= j < |context| ==> !IsUser(context[j])
  {
    if context == [] then None
    else if IsUser(context[|context| - 1]) then Some(|context| - 1)
    else LatestUser(context[..|context| - 1])
  }

  /** What the content of the latest user message adds: 0.2 for a question, 0.2 for a greeting. */
  function ContentBonus(text: string): real {
    (if IsQuestion(text) then ContentBoost else 0.0) + (if IsGreeting(text) then ContentBoost else 0.0)
  }

  function Bonus(context: seq<JsonObject>): real {
    match LatestUser(context)
    case None => 0.0
    case Some(k) => ContentBonus(TextOf(context[k]))
  }

  /** `recency_penalty * (1 - elapsed / 5)`, subtracted while the last response is under five seconds old. */
  function RecencyAdjustment(recencyPenalty: real, elapsed: real): real {
    if elapsed < RecencyWindow then recencyPenalty * (1.0 - elapsed / RecencyWindow) else 0.0
  }

  /** The random term `(draw - 0.5) * 0.1`. */
  function Noise(draw: real): real {
    (draw - 0.5) * 0.1
  }

  /** `max(0.0, min(1.0, x))`. */
  function Clamp(x: real): (y: real)
    ensures 0.0 <= y <= 1.0
    ensures 0.0 <= x <= 1.0 ==> y == x
    ensures x < 0.0 ==> y == 0.0
    ensures x > 1.0 ==> y == 1.0
  {
    if x < 0.0 then 0.0 else if x > 1.0 then 1.0 else x
  }

  /** The score before the random term and the clamp. */
  function RawScore(c: Config, isSpeaking: bool, elapsed: real, context: seq<JsonObject>): real {
    c.baseThreshold - (if isSpeaking then c.interruptPenalty else 0.0) - RecencyAdjustment(c.recencyPenalty, elapsed) + Bonus(context)
  }

  /** `should_respond`: the decision and the confidence it reports. */
  function Decide(c: Config, isSpeaking: bool, elapsed: real, context: seq<JsonObject>, draw: real): (bool, real) {
    var p := Clamp(RawScore(c, isSpeaking, elapsed, context) + Noise(draw));
    (p > c.baseThreshold, p)
  }

  /** The confidence lies in [0, 1], and the assistant speaks iff it exceeds the base threshold. */
  lemma DecisionShape(c: Config, isSpeaking: bool, elapsed: real, context: seq<JsonObject>, draw: real)
    ensures var (speak, p) := Decide(c, isSpeaking, elapsed, context, draw);
      0.0 <= p <= 1.0 && (speak <==> p > c.baseThreshold)
  {
  }

  /** Speaking costs exactly the interrupt penalty. */
  lemma InterruptPenalty(c: Config, elapsed: real, context: seq<JsonObject>)
    ensures RawScore(c, true, elapsed, context) == RawScore(c, false, elapsed, context) - c.interruptPenalty
  {
  }

  lemma MulPositive(x: real, y: real)
    requires x > 0.0 && y > 0.0
    ensures x * y > 0.0
  {
  }

  lemma MulAtMost(x: real, y: real)
    requires x > 0.0 && 0.0 <= y <= 1.0
    ensures x * y <= x
  {
    assert x - x * y == x * (1.0 - y);
    assert x * (1.0 - y) >= 0.0;
  }

  /**
   * Within five seconds of the last response (and not before it) the
   * recency penalty lies in (0, recency_penalty]; afterwards it is zero.
   */
  lemma RecencyPenaltyBounds(recencyPenalty: real, elapsed: real)
    requires recencyPenalty > 0.0 && elapsed >= 0.0
    ensures elapsed < RecencyWindow ==> 0.0 < RecencyAdjustment(recencyPenalty, elapsed) <= recencyPenalty
    ensures elapsed >= RecencyWindow ==> RecencyAdjustment(recencyPenalty, elapsed) == 0.0
  {
    if elapsed < RecencyWindow {
      MulPositive(recencyPenalty, 1.0 - elapsed / RecencyWindow);
      MulAtMost(recencyPenalty, 1.0 - elapsed / RecencyWindow);
    }
  }

  /** The random term lies in [-0.05, 0.05). */
  lemma NoiseBounds(draw: real)
    requires 0.0 <= draw < 1.0
    ensures -0.05 <= Noise(draw) < 0.05
  {
  }

  /**
   * Only the most recent user entry counts: entries after it are not the
   * user's, and entries before it do not matter.
   */
  lemma {:induction false} OnlyLatestUserCounts(context: seq<JsonObject>, later: seq<JsonObject>, entry: JsonObject)
    requires IsUser(entry)
    requires forall j :: 0 <= j < |later| ==> !IsUser(later[j])
    ensures Bonus(context + [entry] + later) == ContentBonus(TextOf(entry))
  {
    var all := context + [entry] + later;
    var k := |context|;
    assert all[k] == entry;
    assert forall j :: k < j < |all| ==> all[j] == later[j - k - 1];
  }

  /** The content bonus is 0, 0.2 or 0.4. */
  lemma BonusValues(context: seq<JsonObject>)
    ensures Bonus(context) in {0.0, ContentBoost, 2.0 * ContentBoost}
  {
  }

  /**
   * With the default thresholds, a question from the user is always answered
   * when the assistant is silent and its last response is over five seconds old.
   */
  lemma QuestionAnswered(context: seq<JsonObject>, k: nat, elapsed: real, draw: real)
    requires LatestUser(context) == Some(k)
    requires IsQuestion(TextOf(context[k]))
    requires elapsed >= RecencyWindow && 0.0 <= draw < 1.0
    ensures Decide(DefaultConfig(), false, elapsed, context, draw).0
  {
  }

  /**
   * With the default thresholds, no penalty and nothing in the latest user
   * message, the decision is the coin flip `draw > 0.5`.
   */
  lemma NeutralIsCoinFlip(context: seq<JsonObject>, elapsed: real, draw: real)
    requires Bonus(context) == 0.0
    requires elapsed >= RecencyWindow && 0.0 <= draw < 1.0
    ensures Decide(DefaultConfig(), false, elapsed, context, draw).0 <==> draw > 0.5
  {
  }

  /**
   * With the default thresholds, the assistant never interrupts itself unless
   * the latest user message is a question or a greeting.
   */
  lemma NoInterruptWithoutCue(context: seq<JsonObject>, elapsed: real, draw: real)
    requires Bonus(context) == 0.0
    requires elapsed >= 0.0 && 0.0 <= draw < 1.0
    ensures !Decide(DefaultConfig(), true, elapsed, context, draw).0
  {
    RecencyPenaltyBounds(0.1, elapsed);
  }

  /** The SHOULD_RESPOND payload. */
  datatype Request = Request(transcription: JsonObject, context: seq<JsonObject>, confidence: real, timestamp: real)

  datatype DeciderState = DeciderState(isSpeaking: bool, lastResponseTime: real, lastUserSpeechTime: Json)

  /** `handle_transcription`. */
  function TranscriptionStep(c: Config, s: DeciderState, transcription: JsonObject, context: seq<JsonObject>, now: real, draw: real)
    : (DeciderState, Option<Request>)
  {
    if transcription == map[] || context == [] then (s, None)
    else
      var s' := s.(lastUserSpeechTime := if "end_time" in transcription then transcription["end_time"] else JFloat(now));
      var (speak, p) := Decide(c, s.isSpeaking, now - s.lastResponseTime, context, draw);
      (s', if speak then Some(Request(transcription, context, p, now)) else None)
  }

  /** An empty transcription or context changes nothing and publishes nothing. */
  lemma EmptyInputIgnored(c: Config, s: DeciderState, transcription: JsonObject, context: seq<JsonObject>, now: real, draw: real)
    requires transcription == map[] || context == []
    ensures TranscriptionStep(c, s, transcription, context, now, draw) == (s, None)
  {
  }

  /**
   * Otherwise the user's speech time is recorded, and a request is published
   * exactly when the decision says to speak, carrying the decision's confidence.
   */
  lemma RequestIffDecided(c: Config, s: DeciderState, transcription: JsonObject, context: seq<JsonObject>, now: real, draw: real)
    requires transcription != map[] && context != []
    ensures var (s', r) := TranscriptionStep(c, s, transcription, context, now, draw);
      var (speak, p) := Decide(c, s.isSpeaking, now - s.lastResponseTime, context, draw);
      s'.isSpeaking == s.isSpeaking && s'.lastResponseTime == s.lastResponseTime &&
      ("end_time" in transcription ==> s'.lastUserSpeechTime == transcription["end_time"]) &&
      (r.Some? <==> speak) && (r.Some? ==> r.value.confidence == p && 0.0 <= p <= 1.0 && r.value.context == context)
  {
  }

  class SpeakDecider {
    const config: Config
    var isSpeaking: bool
    var lastResponseTime: real
    var lastUserSpeechTime: Json

    constructor(config: Config)
      ensures this.config == config
      ensures !isSpeaking && lastResponseTime == 0.0 && lastUserSpeechTime == JFloat(0.0)
    {
      this.config := config;
      isSpeaking := false;
      lastResponseTime := 0.0;
      lastUserSpeechTime := JFloat(0.0);
    }

    function State(): DeciderState
      reads this
    {
      DeciderState(isSpeaking, lastResponseTime, lastUserSpeechTime)
    }

    /** `handle_speech_complete`: the assistant has stopped speaking at `now`. */
    method HandleSpeechComplete(now: real)
      modifies this
      ensures !isSpeaking && lastResponseTime == now && lastUserSpeechTime == old(lastUserSpeechTime)
    {
      isSpeaking := false;
      lastResponseTime := now;
    }

    /** `should_respond`, with the reversed search for the latest user entry. */
    method ShouldRespond(context: seq<JsonObject>, now: real, draw: real) returns (speak: bool, confidence: real)
      ensures (speak, confidence) == Decide(config, isSpeaking, now - lastResponseTime, context, draw)
    {
      var probability := config.baseThreshold;
      if isSpeaking {
        probability := probability - config.interruptPenalty;
      }
      var sinceLast := now - lastResponseTime;
      if sinceLast < RecencyWindow {
        probability := probability - RecencyAdjustment(config.recencyPenalty, sinceLast);
      }
      var latest: Option<nat> := None;
      var k := |context|;
      while k > 0
        invariant 0 <= k <= |context|
        invariant forall j :: k <= j < |context| ==> !IsUser(context[j])
        decreases k
      {
        k := k - 1;
        if IsUser(context[k]) {
          latest := Some(k);
          break;
        }
      }
      assert latest == LatestUser(context);
      if latest.Some? {
        probability := probability + ContentBonus(TextOf(context[latest.value]));
      }
      probability := probability + Noise(draw);
      confidence := Clamp(probability);
      speak := confidence > config.baseThreshold;
    }

    method HandleTranscription(transcription: JsonObject, context: seq<JsonObject>, now: real, draw: real)
      returns (request: Option<Request>)
      modifies this
      ensures (State(), request) == TranscriptionStep(config, old(State()), transcription, context, now, draw)
    {
      if transcription == map[] || context == [] {
        return None;
      }
      lastUserSpeechTime := if "end_time" in transcription then transcription["end_time"] else JFloat(now);
      var speak, confidence := ShouldRespond(context, now, draw);
      request := if speak then Some(Request(transcription, context, confidence, now)) else None;
    }
  }
}
