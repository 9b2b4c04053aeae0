/**
 * The conversational cues both the speak decider and the response
 * generator look for in a user's words (each source file lists them
 * itself; the two lists are identical).
 */
module Cues {
  import opened Json
  import opened Text

  const QuestionIndicators: seq<string> := ["?", "what", "how", "why", "when", "where", "who", "which", "can you", "could you"]
  const Greetings: seq<string> := ["hello", "hi", "hey", "greetings", "good morning", "good afternoon", "good evening"]

  /** `d.get("text", "")`; a text that is not a string reads as "". */
  function TextOf(d: JsonObject): string {
    if "text" in d && d["text"].JStr? then d["text"].s else ""
  }

  /** Some question indicator occurs in the lowercased text. */
  predicate IsQuestion(text: string) {
    ContainsAny(Lower(text), QuestionIndicators)
  }

  /** Some greeting occurs in the lowercased text. */
  predicate IsGreeting(text: string) {
    ContainsAny(Lower(text), Greetings)
  }
}
