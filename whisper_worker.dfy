/**
 * The Whisper worker process (`main` in vanta/voice/listener/whisper_worker.py):
 * start-up argument handling with its exit codes, and the read–dispatch–write
 * loop that answers one JSON command per non-blank input line.
 *
 * Each input line comes with what `json.loads` makes of it, the clock when it
 * is handled, what the model's `transcribe` produced for it, and the text of
 * any exception raised while handling it.
 */
module Worker {
  import opened Wrappers
  import opened Json
  import opened Text
  import Payload
  import Base64

  /** Memory limit, in MB, when no third argument is given. */
  const DefaultMemoryMb: nat := 2048
  /** Sample rate assumed when a command does not name one. */
  const DefaultSampleRate: int := 16000

  const ExitUsage: int := 1
  const ExitNoNumpy: int := 2
  const ExitNoWhisper: int := 3

  datatype Startup =
    | Exit(code: int)
    | Ready(modelName: string, language: string, memoryMb: nat)

  /**
   * Start-up: `argv` holds the script name and its arguments.  Fewer than two
   * arguments exit 1, as does a memory argument `int()` rejects (an uncaught
   * exception); a NumPy import failure exits 2; a Whisper import or load
   * failure exits 3.
   */
  function StartupStep(argv: seq<string>, numpyOk: bool, whisperOk: bool): Startup {
    if |argv| < 3 then Exit(ExitUsage)
    else if |argv| > 3 && !IsDigits(argv[3]) then Exit(ExitUsage)
    else
      var memory := if |argv| > 3 then DigitsValue(argv[3]) else DefaultMemoryMb;
      if !numpyOk then Exit(ExitNoNumpy)
      else if !whisperOk then Exit(ExitNoWhisper)
      else Ready(argv[1], argv[2], memory)
  }

  /** What `model.transcribe` did for a line: produced text in some number of seconds, or raised. */
  datatype ModelOutcome = Transcribed(text: string, seconds: real) | Failed

  /** One input line and the outcomes of handling it. */
  datatype InputLine = InputLine(raw: string, decoded: Option<Json>, now: real, model: ModelOutcome, errorText: string)

  /** What the loop does with a line. */
  datatype Action = Skip | Stop | Respond(reply: JsonObject)

  /** Python's `str()` of a JSON value in an f-string, for the values a command's "action" usually holds. */
  function Display(j: Json): string {
    match j
    case JNull => "None"
    case JBool(b) => if b then "True" else "False"
    case JInt(i) => if i < 0 then "-" + NatToString(-i) else NatToString(i)
    case JStr(s) => s
    case _ => "<value>"
  }

  /** `dict.get(key)`, with `None` for a missing key. */
  function Get(fields: JsonObject, key: string): Json {
    if key in fields then fields[key] else JNull
  }

  /** Python's `x / rate` raises for a zero rate, `False`, or a value that is not a number. */
  predicate RaisesAsDivisor(rate: Json) {
    rate == JInt(0) || rate == JFloat(0.0) || rate == JBool(false) || !(rate.JInt? || rate.JFloat? || rate.JBool?)
  }

  /**
   * `cmd.get('sample_rate', 16000)` as a usable divisor: Python divides by a
   * boolean as 0 or 1.  `None` when dividing by it raises (zero, `False`, or
   * not a number).
   */
  function SampleRate(fields: JsonObject): (r: Option<real>)
    ensures "sample_rate" !in fields ==> r == Some(16000.0)
    ensures "sample_rate" in fields && fields["sample_rate"].JInt? && fields["sample_rate"].i != 0 ==>
              r == Some(fields["sample_rate"].i as real)
    ensures "sample_rate" in fields && fields["sample_rate"].JFloat? && fields["sample_rate"].r != 0.0 ==>
              r == Some(fields["sample_rate"].r)
    ensures r.None? <==> "sample_rate" in fields && RaisesAsDivisor(fields["sample_rate"])
    ensures r.Some? ==> r.value != 0.0
  {
    var rate := if "sample_rate" in fields then fields["sample_rate"] else JInt(DefaultSampleRate);
    match rate
    case JInt(n) => if n == 0 then None else Some(n as real)
    case JFloat(x) => if x == 0.0 then None else Some(x)
    case JBool(b) => if b then Some(1.0) else None
    case _ => None
  }


  /** The reply for decoded samples: the stripped text, the model's time and the audio's length in seconds. */
  function SamplesReply(count: nat, rate: real, model: ModelOutcome, errorText: string): JsonObject
    requires rate != 0.0
  {
    match model
    case Failed => ErrorObject(errorText)
    case Transcribed(text, seconds) =>
      map["text" := JStr(Strip(text)), "duration" := JFloat(seconds), "audio_duration" := JFloat(count as real / rate)]
  }

  /** The "transcribe" command's reply. */
  function TranscribeReply(fields: JsonObject, line: InputLine): JsonObject {
    var audio := Get(fields, "audio");
    if !Truthy(audio) then ErrorObject("No audio data provided")
    else if !audio.JStr? then ErrorObject(line.errorText)
    else match Payload.DecodeSamples(audio.s)
      case None => ErrorObject(line.errorText)
      case Some(samples) =>
        match SampleRate(fields)
        case None => ErrorObject(line.errorText)
        case Some(rate) => SamplesReply(|samples|, rate, line.model, line.errorText)
  }

  /**
   * The loop body for one line.  `not line.strip()` is written `IsBlank`
   * (the two agree by `Text.StripEmptyIffBlank`).
   */
  function Dispatch(line: InputLine): Action {
    if IsBlank(line.raw) then Skip
    else match line.decoded
      case None => Respond(ErrorObject("Invalid JSON command"))
      case Some(JObj(fields)) => CommandAction(fields, line)
      case Some(_) => Respond(ErrorObject("Worker error: " + line.errorText))
  }

  /** The action for a decoded command object, chosen by its "action" field. */
  function CommandAction(fields: JsonObject, line: InputLine): (a: Action)
    ensures a.Stop? <==> Get(fields, "action") == JStr("exit")
    ensures !a.Skip?
  {
    var action := Get(fields, "action");
    if action == JStr("exit") then Stop
    else if action == JStr("transcribe") then Respond(TranscribeReply(fields, line))
    else if action == JStr("ping") then Respond(map["status" := JStr("ok"), "timestamp" := JFloat(line.now)])
    else Respond(ErrorObject("Unknown action: " + Display(action)))
  }

  /** The loop's action for each line. */
  function DispatchAll(lines: seq<InputLine>): (acts: seq<Action>)
    ensures |acts| == |lines| && forall i :: 0 <= i < |lines| ==> acts[i] == Dispatch(lines[i])
  {
    seq(|lines|, i requires 0 <= i < |lines| => Dispatch(lines[i]))
  }

  /** The replies the loop writes, in order, and whether an exit command ended it. */
  function Serve(acts: seq<Action>): (seq<JsonObject>, bool)
    decreases |acts|
  {
    if acts == [] then ([], false)
    else match acts[0]
      case Skip => Serve(acts[1..])
      case Stop => ([], true)
      case Respond(r) => ([r] + Serve(acts[1..]).0, Serve(acts[1..]).1)
  }

  /** One turn of the loop. */
  lemma ServeStep(acts: seq<Action>, i: int)
    requires 0 <= i < |acts|
    ensures Serve(acts[i..]) ==
      match acts[i]
      case Skip => Serve(acts[i + 1..])
      case Stop => ([], true)
      case Respond(r) => ([r] + Serve(acts[i + 1..]).0, Serve(acts[i + 1..]).1)
  {
    assert acts[i..][0] == acts[i];
    assert acts[i..][1..] == acts[i + 1..];
  }

  /** The position of the first exit command, or the number of lines when there is none. */
  function FirstStop(acts: seq<Action>): (n: nat)
    ensures n <= |acts| && (n < |acts| ==> acts[n].Stop?)
    ensures forall i :: 0 <= i < n ==> !acts[i].Stop?
    decreases |acts|
  {
    if acts == [] then 0
    else if acts[0].Stop? then 0
    else 1 + FirstStop(acts[1..])
  }

  /** The replies of the responding actions, in order (blank lines contribute nothing). */
  function Replies(acts: seq<Action>): seq<JsonObject> {
    if acts == [] then []
    else (if acts[|acts| - 1].Respond? then Replies(acts[..|acts| - 1]) + [acts[|acts| - 1].reply] else Replies(acts[..|acts| - 1]))
  }

  /** The number of responding actions. */
  function CountResponds(acts: seq<Action>): nat {
    if acts == [] then 0
    else CountResponds(acts[..|acts| - 1]) + (if acts[|acts| - 1].Respond? then 1 else 0)
  }

  lemma {:induction false} RepliesCount(acts: seq<Action>)
    ensures |Replies(acts)| == CountResponds(acts)
  {
    if acts != [] {
      RepliesCount(acts[..|acts| - 1]);
    }
  }

  lemma {:induction false} RepliesPrepend(a: Action, acts: seq<Action>)
    ensures Replies([a] + acts) == (if a.Respond? then [a.reply] else []) + Replies(acts)
    decreases |acts|
  {
    if acts == [] {
      assert ([a] + acts)[..0] == [];
    } else {
      assert ([a] + acts)[..|[a] + acts| - 1] == [a] + acts[..|acts| - 1];
      RepliesPrepend(a, acts[..|acts| - 1]);
    }
  }

  /**
   * The loop writes exactly the replies of the lines before the first exit
   * command, one per responding line and in input order, and it ends exactly
   * when an exit command arrives.
   */
  lemma {:induction false} OneReplyPerCommand(acts: seq<Action>)
    ensures Serve(acts).0 == Replies(acts[..FirstStop(acts)])
    ensures |Serve(acts).0| == CountResponds(acts[..FirstStop(acts)])
    ensures Serve(acts).1 <==> FirstStop(acts) < |acts|
    decreases |acts|
  {
    if acts != [] && !acts[0].Stop? {
      OneReplyPerCommand(acts[1..]);
      var n := FirstStop(acts[1..]);
      assert acts[..FirstStop(acts)] == [acts[0]] + acts[1..][..n];
      RepliesPrepend(acts[0], acts[1..][..n]);
    }
    if acts != [] && acts[0].Stop? {
      assert acts[..0] == [];
    }
    RepliesCount(acts[..FirstStop(acts)]);
  }

  /** A line is skipped exactly when it is blank, and stops the loop exactly when it is an "exit" command. */
  lemma DispatchKinds(line: InputLine)
    ensures Dispatch(line).Skip? <==> IsBlank(line.raw)
    ensures Dispatch(line).Stop? <==>
      !IsBlank(line.raw) && line.decoded.Some? && line.decoded.value.JObj? &&
      Get(line.decoded.value.fields, "action") == JStr("exit")
  {
  }

  /** A non-blank line holding a JSON object whose "action" is "exit". */
  predicate IsExitLine(line: InputLine) {
    !IsBlank(line.raw) && line.decoded.Some? && line.decoded.value.JObj? &&
    Get(line.decoded.value.fields, "action") == JStr("exit")
  }

  /** The number of lines that are not whitespace-only. */
  function NonBlank(lines: seq<InputLine>): nat {
    if lines == [] then 0
    else NonBlank(lines[..|lines| - 1]) + (if IsBlank(lines[|lines| - 1].raw) then 0 else 1)
  }

  /** Among lines with no exit command, the responding ones are exactly the non-blank ones. */
  lemma {:induction false} RespondingLines(lines: seq<InputLine>)
    requires forall i :: 0 <= i < |lines| ==> !IsExitLine(lines[i])
    ensures CountResponds(DispatchAll(lines)) == NonBlank(lines)
  {
    if lines != [] {
      var k := |lines| - 1;
      assert DispatchAll(lines)[..k] == DispatchAll(lines[..k]);
      RespondingLines(lines[..k]);
      DispatchKinds(lines[k]);
    }
  }

  /**
   * Over the raw input lines: the loop serves the lines up to the first exit
   * command, writes one reply for each non-blank line among them (the replies
   * their own dispatch chose, in order), and ends exactly when some line is an
   * exit command.
   */
  lemma LinesServed(lines: seq<InputLine>)
    ensures var n := FirstStop(DispatchAll(lines));
      && n <= |lines|
      && (n < |lines| ==> IsExitLine(lines[n]))
      && (forall i :: 0 <= i < n ==> !IsExitLine(lines[i]))
      && Serve(DispatchAll(lines)).0 == Replies(DispatchAll(lines[..n]))
      && |Serve(DispatchAll(lines)).0| == NonBlank(lines[..n])
    ensures Serve(DispatchAll(lines)).1 <==> exists i :: 0 <= i < |lines| && IsExitLine(lines[i])
  {
    var acts := DispatchAll(lines);
    var n := FirstStop(acts);
    forall i | 0 <= i < |lines|
      ensures acts[i].Stop? <==> IsExitLine(lines[i])
    {
      DispatchKinds(lines[i]);
    }
    OneReplyPerCommand(acts);
    assert acts[..n] == DispatchAll(lines[..n]);
    RespondingLines(lines[..n]);
  }

  /** Whitespace-only lines are skipped without a reply. */
  lemma BlankLinesSkipped(line: InputLine)
    requires IsBlank(line.raw)
    ensures Dispatch(line) == Skip
  {
  }

  /** A non-blank line that is not JSON gets the "Invalid JSON command" error, and the loop goes on. */
  lemma BadJsonReply(line: InputLine)
    requires !IsBlank(line.raw) && line.decoded.None?
    ensures Dispatch(line) == Respond(map["error" := JStr("Invalid JSON command")])
  {
  }

  /** "ping" answers status "ok" with the clock. */
  lemma PingReply(line: InputLine, fields: JsonObject)
    requires !IsBlank(line.raw) && line.decoded == Some(JObj(fields))
    requires "action" in fields && fields["action"] == JStr("ping")
    ensures Dispatch(line) == Respond(map["status" := JStr("ok"), "timestamp" := JFloat(line.now)])
  {
    assert JStr("ping") != JStr("exit") && JStr("ping") != JStr("transcribe");
  }

  /** Any other action names itself in an "Unknown action" error. */
  lemma UnknownActionReply(line: InputLine, fields: JsonObject, action: string)
    requires !IsBlank(line.raw) && line.decoded == Some(JObj(fields))
    requires "action" in fields && fields["action"] == JStr(action)
    requires action != "exit" && action != "transcribe" && action != "ping"
    ensures Dispatch(line) == Respond(map["error" := JStr("Unknown action: " + action)])
  {
  }

  /** "transcribe" without audio answers "No audio data provided". */
  lemma MissingAudio(fields: JsonObject, line: InputLine)
    requires "audio" !in fields || !Truthy(fields["audio"])
    ensures TranscribeReply(fields, line) == map["error" := JStr("No audio data provided")]
  {
  }

  /**
   * A "transcribe" command whose audio decodes to `samples` and that names no
   * sample rate answers the stripped text, the model's time and
   * audio_duration = samples / 16000.
   */
  lemma TranscribeSuccess(fields: JsonObject, line: InputLine, samples: seq<Payload.Float32Bits>, text: string, seconds: real)
    requires "audio" in fields && fields["audio"].JStr? && fields["audio"].s != ""
    requires Payload.DecodeSamples(fields["audio"].s) == Some(samples)
    requires "sample_rate" !in fields
    requires line.model == Transcribed(text, seconds)
    ensures TranscribeReply(fields, line) ==
      map["text" := JStr(Strip(text)), "duration" := JFloat(seconds), "audio_duration" := JFloat(|samples| as real / 16000.0)]
  {
    assert Get(fields, "audio") == fields["audio"];
    assert Truthy(fields["audio"]);
    assert SampleRate(fields) == Some(16000.0);
    assert TranscribeReply(fields, line) == SamplesReply(|samples|, 16000.0, line.model, line.errorText);
  }

  /**
   * A "sample_rate" of `true` divides as 1, so the reply's audio_duration is
   * the number of samples; `false` makes the division raise, and the reply is
   * the exception's text.
   */
  lemma BooleanSampleRate(fields: JsonObject, line: InputLine, samples: seq<Payload.Float32Bits>, text: string, seconds: real)
    requires "audio" in fields && fields["audio"].JStr? && fields["audio"].s != ""
    requires Payload.DecodeSamples(fields["audio"].s) == Some(samples)
    requires "sample_rate" in fields && fields["sample_rate"].JBool?
    requires line.model == Transcribed(text, seconds)
    ensures fields["sample_rate"] == JBool(true) ==>
              TranscribeReply(fields, line) ==
              map["text" := JStr(Strip(text)), "duration" := JFloat(seconds), "audio_duration" := JFloat(|samples| as real)]
    ensures fields["sample_rate"] == JBool(false) ==> TranscribeReply(fields, line) == map["error" := JStr(line.errorText)]
  {
    DecodedAudioReply(fields, line, samples);
    if fields["sample_rate"] == JBool(true) {
      assert SampleRate(fields) == Some(1.0);
      UnitRateReply(|samples|, text, seconds, line.errorText);
    } else {
      assert SampleRate(fields) == None;
    }
  }

  /** Dividing by 1 leaves the sample count as the audio duration. */
  lemma UnitRateReply(count: nat, text: string, seconds: real, errorText: string)
    ensures SamplesReply(count, 1.0, Transcribed(text, seconds), errorText) ==
              map["text" := JStr(Strip(text)), "duration" := JFloat(seconds), "audio_duration" := JFloat(count as real)]
  {
    DivideByOne(count as real);
    SameReply(JStr(Strip(text)), JFloat(seconds), count as real / 1.0, count as real);
  }

  lemma DivideByOne(x: real)
    ensures x / 1.0 == x
  {
  }

  /** Success replies with equal audio durations are equal. */
  lemma SameReply(text: Json, duration: Json, x: real, y: real)
    requires x == y
    ensures map["text" := text, "duration" := duration, "audio_duration" := JFloat(x)] ==
            map["text" := text, "duration" := duration, "audio_duration" := JFloat(y)]
  {
  }

  /** With truthy audio that decodes, the reply depends only on the divisor. */
  lemma DecodedAudioReply(fields: JsonObject, line: InputLine, samples: seq<Payload.Float32Bits>)
    requires "audio" in fields && fields["audio"].JStr? && fields["audio"].s != ""
    requires Payload.DecodeSamples(fields["audio"].s) == Some(samples)
    ensures SampleRate(fields).None? ==> TranscribeReply(fields, line) == ErrorObject(line.errorText)
    ensures SampleRate(fields).Some? ==>
              TranscribeReply(fields, line) == SamplesReply(|samples|, SampleRate(fields).value, line.model, line.errorText)
  {
    assert Get(fields, "audio") == fields["audio"];
    assert Truthy(fields["audio"]);
  }

  /** The supervisor's command is such a command: its audio is non-empty and decodes to the samples it was built from. */
  lemma SupervisorCommandDecodes(samples: seq<Payload.Float32Bits>)
    requires samples != []
    ensures Payload.EncodeSamples(samples) != ""
    ensures Payload.DecodeSamples(Payload.EncodeSamples(samples)) == Some(samples)
  {
    Payload.PayloadRoundTrip(samples);
    Base64EncodeNonEmpty(Payload.ToBytes(samples));
  }

  /** A non-empty byte string encodes to a non-empty (hence truthy) base64 string. */
  lemma Base64EncodeNonEmpty(bytes: seq<Payload.Byte>)
    requires bytes != []
    ensures Base64.Encode(bytes) != []
  {
  }

  /** Running the worker: the start-up outcome, then the replies and, if an exit command arrived, exit code 0. */
  datatype Run = Run(exitCode: Option<int>, replies: seq<JsonObject>)

  function MainStep(argv: seq<string>, numpyOk: bool, whisperOk: bool, lines: seq<InputLine>): Run {
    match StartupStep(argv, numpyOk, whisperOk)
    case Exit(code) => Run(Some(code), [])
    case Ready(_, _, _) =>
      var (replies, exited) := Serve(DispatchAll(lines));
      Run(if exited then Some(0) else None, replies)
  }

  /** Start-up failures exit with their own codes before reading any command; a missing memory argument means 2048 MB. */
  lemma StartupExitCodes(argv: seq<string>, numpyOk: bool, whisperOk: bool)
    ensures |argv| < 3 ==> StartupStep(argv, numpyOk, whisperOk) == Exit(1)
    ensures |argv| == 3 && !numpyOk ==> StartupStep(argv, numpyOk, whisperOk) == Exit(2)
    ensures |argv| == 3 && numpyOk && !whisperOk ==> StartupStep(argv, numpyOk, whisperOk) == Exit(3)
    ensures |argv| == 3 && numpyOk && whisperOk ==> StartupStep(argv, numpyOk, whisperOk) == Ready(argv[1], argv[2], 2048)
    ensures |argv| > 3 && IsDigits(argv[3]) && numpyOk && whisperOk ==>
      StartupStep(argv, numpyOk, whisperOk) == Ready(argv[1], argv[2], DigitsValue(argv[3]))
  {
  }

  /**
   * The dispatch loop, given the action `Dispatch` chose for each line read:
   * writes one reply per responding action and stops at the first exit
   * command.  Input that runs out without an exit leaves the worker waiting.
   */
  method ServeLoop(acts: seq<Action>) returns (replies: seq<JsonObject>, exited: bool)
    ensures (replies, exited) == Serve(acts)
  {
    replies := [];
    exited := false;
    var i := 0;
    while i < |acts|
      invariant 0 <= i <= |acts|
      invariant replies == Replies(acts[..i])
      invariant forall j :: 0 <= j < i ==> !acts[j].Stop?
      decreases |acts| - i
    {
      var action := acts[i];
      if action.Stop? {
        exited := true;
        assert FirstStop(acts) == i;
        OneReplyPerCommand(acts);
        return;
      }
      assert acts[..i + 1][..i] == acts[..i];
      if action.Respond? {
        replies := replies + [action.reply];
      }
      i := i + 1;
    }
    assert FirstStop(acts) == |acts|;
    assert acts[..i] == acts;
    OneReplyPerCommand(acts);
  }

  /** `main`: start up, then serve commands. */
  method RunWorker(argv: seq<string>, numpyOk: bool, whisperOk: bool, lines: seq<InputLine>) returns (r: Run)
    ensures r == MainStep(argv, numpyOk, whisperOk, lines)
  {
    var startup := StartupStep(argv, numpyOk, whisperOk);
    if startup.Exit? {
      return Run(Some(startup.code), []);
    }
    var replies, exited := ServeLoop(DispatchAll(lines));
    r := Run(if exited then Some(0) else None, replies);
  }
}
