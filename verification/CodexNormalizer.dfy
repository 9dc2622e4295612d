/** `createCodexNormalizer` of `codex-adapter.ts`: the stateful map from transport frames to harness events. */
module CodexNormalizer {
  import opened Json
  import opened CodexAppServer
  import CodexExec

  datatype ToolKind = Exec | Mcp | Write | Search | Other

  /** A failure as it reaches the caller. The error-class table applied to a native turn error is not modelled. */
  datatype HarnessError =
    | Mapped(native: TurnError)
    | OverOutputCap(bytes: nat, cap: nat)
    | NoTerminalFrame
    | BufferCeiling
    | TransportThrew(message: string)

  datatype SessionOutcome =
    | EndedCancelled(partial: bool)
    | EndedFailed(error: HarnessError)
    | EndedCompleted(finalText: string, structuredOutput: Option<Json>, usage: Option<Usage>)

  datatype EventKind =
    | SessionStarted
    | TextDelta(text: string)
    | TextMessage(text: string)
    | ToolStarted(startedId: Option<string>, name: string, input: Record, kind: ToolKind)
    | ToolOutput(callId: string, ok: bool, output: Json, rendered: string)
    | Passthrough(nativeKind: string)
    | ErrorEvent(error: HarnessError)
    | SessionEnded(outcome: SessionOutcome)

  datatype Event = Event(seqNo: nat, kind: EventKind)

  /** The turn's fixed parameters; `parse` is `JSON.parse`, `None` where it throws, and `stringify` is
      `JSON.stringify`. */
  datatype TurnSpec = TurnSpec(schemaRequested: bool, outputByteCap: Option<nat>, parse: string -> Option<Json>,
                               stringify: Json -> string)

  datatype NormState = NormState(lastMessageText: Option<string>, lastUsage: Option<Usage>,
                                 seenError: Option<TurnError>, sessionStarted: bool, terminated: bool)

  const FRESH := NormState(None, None, None, false, false)

  /** One frame's events: `skipped` sequence numbers are taken and never emitted, then one per event. */
  datatype Translation = Translation(next: NormState, skipped: nat, kinds: seq<EventKind>)

  /** The events of a translation, numbered after the counter value `counter`. */
  function Stamp(counter: nat, kinds: seq<EventKind>): (events: seq<Event>)
    ensures |events| == |kinds|
    ensures forall i :: 0 <= i < |events| ==> events[i] == Event(counter + 1 + i, kinds[i])
  {
    seq(|kinds|, i requires 0 <= i < |kinds| => Event(counter + 1 + i, kinds[i]))
  }

  function Utf8Length(text: string): nat {
    if text == "" then 0 else
    var c := text[|text| - 1] as int;
    Utf8Length(text[..|text| - 1]) + if c < 0x80 then 1 else if c < 0x800 then 2 else if c < 0x10000 then 3 else 4
  }

  function ClassifyItemKind(itemType: string): ToolKind {
    if itemType == "commandExecution" then Exec
    else if itemType == "mcpToolCall" || itemType == "dynamicToolCall" then Mcp
    else if itemType == "fileChange" then Write
    else if itemType == "webSearch" then Search
    else Other
  }

  function ToolName(item: Record, itemType: string): string {
    Or(Or(StringAt(Some(item), "tool"), StringAt(Some(item), "command")), Some(itemType)).value
  }

  /** The arguments of a call, or the item itself if it has none. */
  function ToolInput(item: Record): Record {
    Or(AsRecord(Field(Some(item), "arguments")), Some(item)).value
  }

  /** A property that is neither absent nor `null`, or else a default. */
  function PresentOr(item: Record, key: string, otherwise: Json): Json {
    if Present(item, key) then item[key] else otherwise
  }

  /** What a completed item put out: a command its text, a call its result or error, anything else its changes. */
  function OutputOf(item: Record, itemType: string): Json {
    if itemType == "commandExecution" then Str(Or(StringAt(Some(item), "aggregatedOutput"), Some("")).value)
    else if itemType == "mcpToolCall" || itemType == "dynamicToolCall" then
      PresentOr(item, "result", PresentOr(item, "error", Null))
    else PresentOr(item, "changes", Obj(item))
  }

  /** The output as text: a failed call says its message. */
  function RenderedOutput(spec: TurnSpec, item: Record, itemType: string): string {
    var output := OutputOf(item, itemType);
    var message := StringAt(AsRecord(Field(Some(item), "error")), "message");
    if itemType == "commandExecution" then output.s
    else if (itemType == "mcpToolCall" || itemType == "dynamicToolCall") && message.Some? then message.value
    else spec.stringify(output)
  }

  function ToolOutputOf(spec: TurnSpec, item: Record, itemType: string): EventKind {
    var status := StringAt(Some(item), "status");
    var error := AsRecord(Field(Some(item), "error"));
    ToolOutput(Or(StringAt(Some(item), "id"), Some(itemType + ":unknown")).value,
               (status.None? || status == Some("completed")) && error.None?,
               OutputOf(item, itemType), RenderedOutput(spec, item, itemType))
  }

  function ParseStructured(spec: TurnSpec, raw: Option<string>): Option<Json> {
    if !spec.schemaRequested || raw.None? then None else
    var parsed := spec.parse(raw.value);
    if parsed.None? then None else Some(CodexExec.StripNullDeep(parsed.value))
  }

  /** How the terminal frame settles the session, given what was streamed before it. */
  function OutcomeOf(spec: TurnSpec, s: NormState, r: TurnResult): SessionOutcome {
    var finalRaw := Or(r.finalMessage, s.lastMessageText);
    var rawBytes := if finalRaw.Some? then Utf8Length(finalRaw.value) else 0;
    match r.status
    case Cancelled => EndedCancelled(finalRaw.Some?)
    case Failed =>
      var fallback := TurnError(FromExit, "codex turn failed", None, None, None);
      EndedFailed(Mapped(Or(Or(r.error, s.seenError), Some(fallback)).value))
    case Completed =>
      if spec.outputByteCap.Some? && rawBytes > spec.outputByteCap.value then
        EndedFailed(OverOutputCap(rawBytes, spec.outputByteCap.value))
      else
        EndedCompleted(Or(finalRaw, Some("")).value, ParseStructured(spec, finalRaw), Or(r.usage, s.lastUsage))
  }

  /** A settlement's events: a failure is announced before the session ends with it. */
  function Settlement(outcome: SessionOutcome): seq<EventKind> {
    if outcome.EndedFailed? then [ErrorEvent(outcome.error), SessionEnded(outcome)] else [SessionEnded(outcome)]
  }

  function TranslateTerminal(spec: TurnSpec, s: NormState, r: TurnResult): Translation {
    Translation(s.(terminated := true), 0, Settlement(OutcomeOf(spec, s, r)))
  }

  function Surface(s: NormState, nativeKind: string): Translation {
    Translation(s, 0, [Passthrough(nativeKind)])
  }

  /** `item/started` and `item/completed`. A completed tool item other than a file change stamps a start event
      that is then discarded. */
  function TranslateItem(spec: TurnSpec, s: NormState, name: string, params: Option<Record>): Translation {
    var item := AsRecord(Field(params, "item"));
    var itemType := StringAt(item, "type");
    if itemType.None? then Surface(s, name)
    else if itemType.value == "agentMessage" then
      var text := Or(StringAt(item, "text"), Some("")).value;
      if name == "item/completed" then Translation(s.(lastMessageText := Some(text)), 0, [TextMessage(text)])
      else Surface(s, "item:agentMessage")
    else
      var kind := ClassifyItemKind(itemType.value);
      if kind == Other then Surface(s, "item:" + itemType.value) else
      var started :=
        ToolStarted(StringAt(item, "id"), ToolName(item.value, itemType.value), ToolInput(item.value), kind);
      if name == "item/started" then Translation(s, 0, [started]) else
      var completed := ToolOutputOf(spec, item.value, itemType.value);
      if itemType.value == "fileChange" then Translation(s, 0, [started, completed]) else Translation(s, 1, [completed])
  }

  function NativeError(params: Option<Record>): TurnError {
    var err := AsRecord(Field(params, "error"));
    TurnError(FromTurn, Or(StringAt(err, "message"), Some("codex error")).value, Field(err, "codexErrorInfo"), None,
              None)
  }

  function TranslateNotification(spec: TurnSpec, s: NormState, name: string, params: Option<Record>): Translation {
    if name == "turn/started" then
      if s.sessionStarted then Surface(s, name)
      else Translation(s.(sessionStarted := true), 0, [SessionStarted])
    else if name == "item/agentMessage/delta" then
      Translation(s, 0, [TextDelta(Or(StringAt(params, "delta"), Some("")).value)])
    else if name == "item/started" || name == "item/completed" then
      TranslateItem(spec, s, name, params)
    else if name == "thread/tokenUsage/updated" then
      var tu := AsRecord(Field(params, "tokenUsage"));
      var usage := MapTokenUsage(Or(AsRecord(Field(tu, "total")), AsRecord(Field(tu, "last"))));
      Surface(s.(lastUsage := Or(usage, s.lastUsage)), name)
    else if name == "error" then
      Surface(s.(seenError := Some(NativeError(params))), name)
    else
      Surface(s, name)
  }

  /** A record the normalizer itself reads as the terminal frame, whoever wrote it. */
  predicate ClaimsTerminal(m: Record) { Field(Some(m), "rennet") == Some(Str("turn-result")) }

  function SourceOf(name: Option<string>): ErrorSource {
    if name == Some("jsonrpc") then FromJsonRpc
    else if name == Some("exit") then FromExit
    else if name == Some("spawn") then FromSpawn
    else if name == Some("parse") then FromParse
    else FromTurn
  }

  /** The reading of such a record as a terminal frame. */
  function ReadResult(m: Record): TurnResult {
    var status := StringAt(Some(m), "status");
    var err := AsRecord(Field(Some(m), "error"));
    TurnResult(if status == Some("cancelled") then Cancelled else if status == Some("failed") then Failed
               else Completed,
               StringAt(Some(m), "finalMessage"), if Present(m, "usage") then Some(AsClaimed(m["usage"])) else None,
               StringAt(Some(m), "model"),
               if err.None? then None
               else Some(TurnError(SourceOf(StringAt(err, "source")), Or(StringAt(err, "message"), Some("")).value,
                                   Field(err, "codexErrorInfo"), NumberAt(err, "code"), NumberAt(err, "exitCode"))))
  }

  function Translate(spec: TurnSpec, s: NormState, frame: Frame): Translation {
    match frame
    case NonObject => Surface(s, "non-object")
    case Foreign(_) => Surface(s, "foreign")
    case Terminal(r) => TranslateTerminal(spec, s, r)
    case Native(m) => TranslateRecord(spec, s, m)
  }

  function TranslateRecord(spec: TurnSpec, s: NormState, m: Record): Translation {
    if ClaimsTerminal(m) then TranslateTerminal(spec, s, ReadResult(m))
    else if Field(Some(m), "rennet") == Some(Str("foreign")) then Surface(s, "foreign")
    else
      var name := StringAt(Some(m), "method");
      if name.None? then Surface(s, "unknown")
      else TranslateNotification(spec, s, name.value, AsRecord(Field(Some(m), "params")))
  }

  /** What `finalize` adds when the stream ends. */
  function Finalization(s: NormState): seq<EventKind> {
    if s.terminated then [] else Settlement(EndedFailed(NoTerminalFrame))
  }

  class Normalizer {
    const spec: TurnSpec
    var lastMessageText: Option<string>
    var lastUsage: Option<Usage>
    var seenError: Option<TurnError>
    var sessionStarted: bool
    var terminated: bool
    /** The session's shared sequence counter. */
    var counter: nat

    ghost function View(): NormState
      reads this
    {
      NormState(lastMessageText, lastUsage, seenError, sessionStarted, terminated)
    }

    constructor (spec: TurnSpec)
      ensures this.spec == spec && View() == FRESH && counter == 0
    {
      this.spec := spec;
      lastMessageText, lastUsage, seenError := None, None, None;
      sessionStarted, terminated, counter := false, false, 0;
    }

    /** Stamp one event body with the next sequence number. */
    method Envelope(kind: EventKind) returns (event: Event)
      modifies this`counter
      ensures counter == old(counter) + 1 && event == Event(counter, kind)
    {
      counter := counter + 1;
      event := Event(counter, kind);
    }

    /** The error event and the failed end of session, in that order. */
    method Fail(error: HarnessError) returns (events: seq<Event>)
      modifies this`counter
      ensures events == Stamp(old(counter), Settlement(EndedFailed(error))) && counter == old(counter) + 2
    {
      var first := Envelope(ErrorEvent(error));
      var second := Envelope(SessionEnded(EndedFailed(error)));
      events := [first, second];
    }

    method End(outcome: SessionOutcome) returns (events: seq<Event>)
      requires !outcome.EndedFailed?
      modifies this`counter
      ensures events == Stamp(old(counter), Settlement(outcome)) && counter == old(counter) + 1
    {
      var event := Envelope(SessionEnded(outcome));
      events := [event];
    }

    method Settle(r: TurnResult) returns (events: seq<Event>)
      modifies this
      ensures var t := TranslateTerminal(spec, old(View()), r);
              View() == t.next && events == Stamp(old(counter), t.kinds) && counter == old(counter) + |t.kinds|
    {
      terminated := true;
      var finalRaw := Or(r.finalMessage, lastMessageText);
      match r.status {
        case Cancelled => events := End(EndedCancelled(finalRaw.Some?));
        case Failed =>
          var fallback := TurnError(FromExit, "codex turn failed", None, None, None);
          events := Fail(Mapped(Or(Or(r.error, seenError), Some(fallback)).value));
        case Completed =>
          var rawBytes := if finalRaw.Some? then Utf8Length(finalRaw.value) else 0;
          if spec.outputByteCap.Some? && rawBytes > spec.outputByteCap.value {
            events := Fail(OverOutputCap(rawBytes, spec.outputByteCap.value));
          } else {
            events := End(EndedCompleted(Or(finalRaw, Some("")).value, ParseStructured(spec, finalRaw),
                                         Or(r.usage, lastUsage)));
          }
      }
    }

    method Pass(nativeKind: string) returns (events: seq<Event>)
      modifies this`counter
      ensures events == Stamp(old(counter), [Passthrough(nativeKind)]) && counter == old(counter) + 1
    {
      var event := Envelope(Passthrough(nativeKind));
      events := [event];
    }

    method NormalizeItem(name: string, params: Option<Record>) returns (events: seq<Event>)
      modifies this
      ensures var t := TranslateItem(spec, old(View()), name, params);
              && View() == t.next && events == Stamp(old(counter) + t.skipped, t.kinds)
              && counter == old(counter) + t.skipped + |t.kinds|
    {
      var item := AsRecord(Field(params, "item"));
      var itemType := StringAt(item, "type");
      if itemType.None? {
        events := Pass(name);
      } else if itemType.value == "agentMessage" {
        var text := Or(StringAt(item, "text"), Some("")).value;
        if name == "item/completed" {
          lastMessageText := Some(text);
          var event := Envelope(TextMessage(text));
          events := [event];
        } else {
          events := Pass("item:agentMessage");
        }
      } else {
        var kind := ClassifyItemKind(itemType.value);
        if kind == Other {
          events := Pass("item:" + itemType.value);
        } else {
          var toolName := ToolName(item.value, itemType.value);
          var started := Envelope(ToolStarted(StringAt(item, "id"), toolName, ToolInput(item.value), kind));
          if name == "item/started" { return [started]; }
          var completed := Envelope(ToolOutputOf(spec, item.value, itemType.value));
          events := if itemType.value == "fileChange" then [started, completed] else [completed];
        }
      }
    }

    method NormalizeNotification(name: string, params: Option<Record>) returns (events: seq<Event>)
      modifies this
      ensures var t := TranslateNotification(spec, old(View()), name, params);
              && View() == t.next && events == Stamp(old(counter) + t.skipped, t.kinds)
              && counter == old(counter) + t.skipped + |t.kinds|
    {
      if name == "turn/started" && !sessionStarted {
        sessionStarted := true;
        var event := Envelope(SessionStarted);
        events := [event];
      } else if name == "item/agentMessage/delta" {
        var event := Envelope(TextDelta(Or(StringAt(params, "delta"), Some("")).value));
        events := [event];
      } else if name == "item/started" || name == "item/completed" {
        events := NormalizeItem(name, params);
      } else {
        if name == "thread/tokenUsage/updated" {
          var tu := AsRecord(Field(params, "tokenUsage"));
          lastUsage := Or(MapTokenUsage(Or(AsRecord(Field(tu, "total")), AsRecord(Field(tu, "last")))), lastUsage);
        } else if name == "error" {
          seenError := Some(NativeError(params));
        }
        events := Pass(name);
      }
    }

    method Normalize(frame: Frame) returns (events: seq<Event>)
      modifies this
      ensures var t := Translate(spec, old(View()), frame);
              && View() == t.next && events == Stamp(old(counter) + t.skipped, t.kinds)
              && counter == old(counter) + t.skipped + |t.kinds|
    {
      if frame.Native? {
        events := NormalizeRecord(frame.record);
      } else if frame.Terminal? {
        events := Settle(frame.result);
      } else {
        events := Pass(if frame.Foreign? then "foreign" else "non-object");
      }
    }

    method NormalizeRecord(m: Record) returns (events: seq<Event>)
      modifies this
      ensures var t := TranslateRecord(spec, old(View()), m);
              && View() == t.next && events == Stamp(old(counter) + t.skipped, t.kinds)
              && counter == old(counter) + t.skipped + |t.kinds|
    {
      if ClaimsTerminal(m) {
        events := Settle(ReadResult(m));
      } else if Field(Some(m), "rennet") == Some(Str("foreign")) {
        events := Pass("foreign");
      } else {
        var name := StringAt(Some(m), "method");
        if name.None? {
          events := Pass("unknown");
        } else {
          events := NormalizeNotification(name.value, AsRecord(Field(Some(m), "params")));
        }
      }
    }

    method Finalize() returns (events: seq<Event>)
      modifies this`counter
      ensures events == Stamp(old(counter), Finalization(View())) && counter == old(counter) + |events|
    {
      if terminated { return []; }
      events := Fail(NoTerminalFrame);
    }
  }
}
