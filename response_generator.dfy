/**
 * The response generator: picks a reply template by the kind of the user's
 * last utterance (greeting, question or anything else) and publishes it as
 * SPEAK_TEXT.  The template `random.choice` picks is given by `choice`,
 * taken modulo the number of templates.
 */
module Responder {
  import opened Wrappers
  import opened Json
  import opened Cues

  datatype Category = Greeting | Question | Default

  /** The template list of each category. */
  function Templates(c: Category): (ts: seq<string>)
    ensures |ts| >= 4 && forall i :: 0 <= i < |ts| ==> ts[i] != ""
  {
    match c
    case Greeting => ["Hello there!", "Hi! How can I help you?", "Hey, I'm listening.", "Good to hear from you."]
    case Question => ["I'm still learning how to answer questions properly.", "That's an interesting question.",
                      "Let me think about that.", "I wish I could give you a better answer right now."]
    case Default => ["I heard you.", "I'm listening.", "I understand.", "Interesting.", "I see.", "Tell me more."]
  }

  /** The category `generate_response` settles on: a greeting overrides a question. */
  function Categorize(text: string): Category {
    if IsGreeting(text) then Greeting else if IsQuestion(text) then Question else Default
  }

  /** The category is "question" exactly for a question that is not a greeting, "default" for neither. */
  lemma CategoryRules(text: string)
    ensures Categorize(text) == Greeting <==> IsGreeting(text)
    ensures Categorize(text) == Question <==> IsQuestion(text) && !IsGreeting(text)
    ensures Categorize(text) == Default <==> !IsQuestion(text) && !IsGreeting(text)
  {
  }

  /** `generate_response`: a template of the transcription's category. */
  function GenerateResponse(transcription: JsonObject, choice: nat): (r: string)
    ensures r in Templates(Categorize(TextOf(transcription)))
    ensures r != ""
  {
    var ts := Templates(Categorize(TextOf(transcription)));
    ts[choice % |ts|]
  }

  /** Every template is reachable by some choice. */
  lemma EveryTemplateReachable(transcription: JsonObject, i: nat)
    requires i < |Templates(Categorize(TextOf(transcription)))|
    ensures GenerateResponse(transcription, i) == Templates(Categorize(TextOf(transcription)))[i]
  {
    ModBelow(i, |Templates(Categorize(TextOf(transcription)))|);
  }

  lemma ModBelow(i: nat, n: nat)
    requires i < n
    ensures i % n == i
  {
  }

  /** The SPEAK_TEXT payload. */
  datatype SpeakText = SpeakText(text: string, context: seq<JsonObject>, timestamp: real)

  /** `handle_should_respond`. */
  function HandleShouldRespond(transcription: JsonObject, context: seq<JsonObject>, now: real, choice: nat): Option<SpeakText> {
    if context == [] || transcription == map[] then None
    else
      var response := GenerateResponse(transcription, choice);
      if response != "" then Some(SpeakText(response, context, now)) else None
  }

  /**
   * Nothing is published without context or transcription; otherwise a
   * non-empty template of the right category is always published, with the
   * context passed along.
   */
  lemma PublishesIffInput(transcription: JsonObject, context: seq<JsonObject>, now: real, choice: nat)
    ensures var r := HandleShouldRespond(transcription, context, now, choice);
      (r.Some? <==> context != [] && transcription != map[]) &&
      (r.Some? ==> r.value.text != "" && r.value.text in Templates(Categorize(TextOf(transcription))) &&
                   r.value.context == context && r.value.timestamp == now)
  {
  }
}
