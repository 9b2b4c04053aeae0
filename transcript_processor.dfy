/**
 * The transcript processor: keeps the last sixty seconds of conversation
 * (user transcriptions and the assistant's own speech) in a buffer ordered
 * by arrival, appends every entry to the transcript log, and hands final
 * user transcriptions on for the should-respond decision.
 *
 * The clock is the parameter `now`; it also stands in for the start and
 * end times an event leaves out.  The log file is the sequence of entries
 * written to it.
 */
module Transcripts {
  import opened Wrappers
  import opened Json
  import opened Text

  /** How far back, in seconds, the context buffer reaches. */
  const BufferSeconds: real := 60.0

  /** One utterance, by the user (`isUser`) or by the assistant. */
  datatype Entry = Entry(text: string, startTime: real, endTime: real, isUser: bool)

  /** `TranscriptEntry.to_dict`: the entry's fields plus its duration. */
  function ToDict(e: Entry): (d: JsonObject)
    ensures d.Keys == {"text", "start_time", "end_time", "is_user", "duration"}
    ensures d["duration"] == JFloat(e.endTime - e.startTime)
  {
    map["text" := JStr(e.text), "start_time" := JFloat(e.startTime), "end_time" := JFloat(e.endTime),
        "is_user" := JBool(e.isUser), "duration" := JFloat(e.endTime - e.startTime)]
  }

  /** Reads an entry back from its dictionary; `None` when a field is missing or of the wrong kind. */
  function FromDict(d: JsonObject): Option<Entry> {
    if "text" in d && d["text"].JStr? && "start_time" in d && d["start_time"].JFloat? &&
       "end_time" in d && d["end_time"].JFloat? && "is_user" in d && d["is_user"].JBool?
    then Some(Entry(d["text"].s, d["start_time"].r, d["end_time"].r, d["is_user"].b))
    else None
  }

  /** The dictionary of an entry records the entry completely. */
  lemma DictRoundTrip(e: Entry)
    ensures FromDict(ToDict(e)) == Some(e)
  {
  }

  /** `[e.to_dict() for e in buffer]`. */
  function Dicts(buffer: seq<Entry>): (ds: seq<JsonObject>)
    ensures |ds| == |buffer| && forall i :: 0 <= i < |buffer| ==> FromDict(ds[i]) == Some(buffer[i])
  {
    seq(|buffer|, i requires 0 <= i < |buffer| => ToDict(buffer[i]))
  }

  /**
   * The pruning loop of `_add_to_buffer`: drops entries from the front while
   * the front entry started more than sixty seconds before `now`.
   */
  function Prune(buffer: seq<Entry>, now: real): (r: seq<Entry>)
    ensures |r| <= |buffer| && r == buffer[|buffer| - |r|..]
    ensures r != [] ==> now - r[0].startTime <= BufferSeconds
    ensures forall i :: 0 <= i < |buffer| - |r| ==> now - buffer[i].startTime > BufferSeconds
    decreases |buffer|
  {
    if buffer != [] && now - buffer[0].startTime > BufferSeconds then Prune(buffer[1..], now) else buffer
  }

  /** Pruning again at the same instant removes nothing more. */
  lemma PruneIdempotent(buffer: seq<Entry>, now: real)
    ensures Prune(Prune(buffer, now), now) == Prune(buffer, now)
  {
  }

  /** An entry that started within the window survives its own pruning, as the newest entry. */
  lemma {:induction false} RecentEntryKept(buffer: seq<Entry>, e: Entry, now: real)
    requires now - e.startTime <= BufferSeconds
    ensures var r := Prune(buffer + [e], now); r != [] && r[|r| - 1] == e
  {
    var b := buffer + [e];
    assert b[|buffer|] == e;
  }

  /** What an event contributes: its text and times, with `now` for a missing time. */
  datatype SpeechEvent = SpeechEvent(text: Option<string>, startTime: Option<real>, endTime: Option<real>, isFinal: Option<bool>)

  function MakeEntry(ev: SpeechEvent, now: real, isUser: bool): Entry {
    Entry(ev.text.GetOr(""), ev.startTime.GetOr(now), ev.endTime.GetOr(now), isUser)
  }

  /**
   * The TRANSCRIPTION_PROCESSED payload: the new entry and the buffer in
   * order.  The list of formatted context lines is not part of this model.
   */
  datatype Processed = Processed(transcription: JsonObject, buffer: seq<JsonObject>)

  /** The buffer and the entries written to the transcript log. */
  datatype ProcState = ProcState(buffer: seq<Entry>, log: seq<Entry>)

  /** `handle_transcription`. */
  function TranscriptionStep(s: ProcState, ev: SpeechEvent, now: real): (ProcState, Option<Processed>) {
    if IsBlank(ev.text.GetOr("")) then (s, None)
    else
      var entry := MakeEntry(ev, now, true);
      var buffer := Prune(s.buffer + [entry], now);
      if ev.isFinal.GetOr(true) then
        (ProcState(buffer, s.log + [entry]), Some(Processed(ToDict(entry), Dicts(buffer))))
      else
        (ProcState(buffer, s.log), None)
  }

  /** `handle_system_speech`. */
  function SystemSpeechStep(s: ProcState, ev: SpeechEvent, now: real): ProcState {
    if IsBlank(ev.text.GetOr("")) then s
    else
      var entry := MakeEntry(ev, now, false);
      ProcState(Prune(s.buffer + [entry], now), s.log + [entry])
  }

  /** Blank or missing text leaves buffer and log as they were and publishes nothing. */
  lemma BlankTextIgnored(s: ProcState, ev: SpeechEvent, now: real)
    requires IsBlank(ev.text.GetOr(""))
    ensures TranscriptionStep(s, ev, now) == (s, None)
    ensures SystemSpeechStep(s, ev, now) == s
  {
  }

  /**
   * After either handler stores an entry the buffer is a suffix of the old
   * buffer followed by the entry, in the same order, and its front started
   * within sixty seconds of `now`.
   */
  lemma {:induction false} BufferIsRecentSuffix(s: ProcState, ev: SpeechEvent, now: real)
    ensures var b := TranscriptionStep(s, ev, now).0.buffer;
      var all := s.buffer + [MakeEntry(ev, now, true)];
      b == s.buffer || (|b| <= |all| && b == all[|all| - |b|..] && (b != [] ==> now - b[0].startTime <= BufferSeconds))
    ensures var b := SystemSpeechStep(s, ev, now).buffer;
      var all := s.buffer + [MakeEntry(ev, now, false)];
      b == s.buffer || (|b| <= |all| && b == all[|all| - |b|..] && (b != [] ==> now - b[0].startTime <= BufferSeconds))
  {
    var blank := IsBlank(ev.text.GetOr(""));
    assert TranscriptionStep(s, ev, now).0.buffer ==
      if blank then s.buffer else Prune(s.buffer + [MakeEntry(ev, now, true)], now);
    assert SystemSpeechStep(s, ev, now).buffer ==
      if blank then s.buffer else Prune(s.buffer + [MakeEntry(ev, now, false)], now);
  }

  /** A user transcription that started within the window is stored as the newest entry, as the user's, with its text. */
  lemma SpeakerRecorded(s: ProcState, ev: SpeechEvent, now: real)
    requires !IsBlank(ev.text.GetOr(""))
    requires ev.startTime.GetOr(now) >= now - BufferSeconds
    ensures var b := TranscriptionStep(s, ev, now).0.buffer;
      b != [] && b[|b| - 1].isUser && b[|b| - 1].text == ev.text.value
  {
    var user := MakeEntry(ev, now, true);
    RecentEntryKept(s.buffer, user, now);
    assert TranscriptionStep(s, ev, now).0.buffer == Prune(s.buffer + [user], now);
  }

  /** System speech that started within the window is stored as the newest entry, as the assistant's. */
  lemma AssistantSpeechRecorded(s: ProcState, ev: SpeechEvent, now: real)
    requires !IsBlank(ev.text.GetOr(""))
    requires ev.startTime.GetOr(now) >= now - BufferSeconds
    ensures var b := SystemSpeechStep(s, ev, now).buffer; b != [] && !b[|b| - 1].isUser
  {
    var system := MakeEntry(ev, now, false);
    RecentEntryKept(s.buffer, system, now);
    assert SystemSpeechStep(s, ev, now).buffer == Prune(s.buffer + [system], now);
  }

  /**
   * A user transcription is published exactly when its text is not blank and
   * it is final (the default); the payload lists the whole new buffer, in order,
   * and a published transcription is also logged.
   */
  lemma PublishedIffFinal(s: ProcState, ev: SpeechEvent, now: real)
    ensures var (s', p) := TranscriptionStep(s, ev, now);
      (p.Some? <==> !IsBlank(ev.text.GetOr("")) && ev.isFinal.GetOr(true)) &&
      (p.Some? ==> p.value.transcription == ToDict(MakeEntry(ev, now, true)) &&
                   |p.value.buffer| == |s'.buffer| &&
                   (forall i :: 0 <= i < |s'.buffer| ==> FromDict(p.value.buffer[i]) == Some(s'.buffer[i])) &&
                   s'.log == s.log + [MakeEntry(ev, now, true)]) &&
      (p.None? ==> s'.log == s.log)
  {
  }

  /** System speech is always logged unless blank, and never published. */
  lemma SystemSpeechLogged(s: ProcState, ev: SpeechEvent, now: real)
    requires !IsBlank(ev.text.GetOr(""))
    ensures SystemSpeechStep(s, ev, now).log == s.log + [MakeEntry(ev, now, false)]
  {
  }

  class TranscriptProcessor {
    var buffer: seq<Entry>
    /** Entries appended to the transcript log, oldest first. */
    var log: seq<Entry>

    constructor()
      ensures buffer == [] && log == []
    {
      buffer := [];
      log := [];
    }

    function State(): ProcState
      reads this
    {
      ProcState(buffer, log)
    }

    /** `_add_to_buffer`: append at the back, then pop stale entries from the front. */
    method AddToBuffer(entry: Entry, now: real)
      modifies this
      ensures buffer == Prune(old(buffer) + [entry], now)
      ensures log == old(log)
    {
      buffer := buffer + [entry];
      while buffer != [] && now - buffer[0].startTime > BufferSeconds
        invariant Prune(buffer, now) == Prune(old(buffer) + [entry], now)
        invariant log == old(log)
        decreases |buffer|
      {
        buffer := buffer[1..];
      }
    }

    method HandleTranscription(ev: SpeechEvent, now: real) returns (published: Option<Processed>)
      modifies this
      ensures (State(), published) == TranscriptionStep(old(State()), ev, now)
    {
      var text := ev.text.GetOr("");
      if IsBlank(text) {
        return None;
      }
      var entry := MakeEntry(ev, now, true);
      AddToBuffer(entry, now);
      var isFinal := ev.isFinal.GetOr(true);
      if isFinal {
        log := log + [entry];
        published := Some(Processed(ToDict(entry), GetBufferForShouldRespond()));
      } else {
        published := None;
      }
    }

    method HandleSystemSpeech(ev: SpeechEvent, now: real)
      modifies this
      ensures State() == SystemSpeechStep(old(State()), ev, now)
    {
      var text := ev.text.GetOr("");
      if IsBlank(text) {
        return;
      }
      var entry := MakeEntry(ev, now, false);
      AddToBuffer(entry, now);
      log := log + [entry];
    }

    /** `get_buffer_for_should_respond`: the buffer's dictionaries, in buffer order. */
    function GetBufferForShouldRespond(): (ds: seq<JsonObject>)
      reads this
      ensures |ds| == |buffer| && forall i :: 0 <= i < |buffer| ==> FromDict(ds[i]) == Some(buffer[i])
    {
      Dicts(buffer)
    }
  }
}
