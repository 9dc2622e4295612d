/** The turn runner of `codex-app-server.ts`: a client-side JSON-RPC 2.0 conversation that runs one turn.
    `Step` specifies one scheduling step of the generator together with its abort listener; the class
    `TurnRunner` holds the generator's local variables and is proved to take exactly those steps. */
module CodexAppServer {
  import opened Json
  import opened Text
  import Machine

  // ----- the terminal frame -----

  /** Token usage, measured from a breakdown, or whatever a record that claims to be the terminal frame says it is. */
  datatype Usage =
    | Usage(input: int, output: int, cacheRead: int, reasoning: int, total: int)
    | AsClaimed(value: Json)

  datatype ErrorSource = FromTurn | FromJsonRpc | FromExit | FromSpawn | FromParse

  datatype TurnError = TurnError(source: ErrorSource, message: string, codexErrorInfo: Option<Json>,
                                 code: Option<int>, exitCode: Option<int>)

  datatype Status = Completed | Failed | Cancelled

  datatype TurnResult = TurnResult(status: Status, finalMessage: Option<string>, usage: Option<Usage>,
                                   model: Option<string>, error: Option<TurnError>)

  /** What a turn transport yields: a native record, a notification judged foreign, or the terminal frame.
      `NonObject` is never yielded by the runner; the adapter's seam admits it. */
  datatype Frame = NonObject | Native(record: Record) | Foreign(native: Record) | Terminal(result: TurnResult)

  function Max(a: int, b: int): int { if a < b then b else a }

  function TokenCount(breakdown: Record, key: string): int {
    var n := NumberAt(Some(breakdown), key);
    if n.Some? then n.value else 0
  }

  function MapTokenUsage(breakdown: Option<Record>): Option<Usage> {
    if breakdown.None? then None else
    var inputTokens := TokenCount(breakdown.value, "inputTokens");
    var cacheRead := TokenCount(breakdown.value, "cachedInputTokens");
    var output := TokenCount(breakdown.value, "outputTokens");
    var reasoning := TokenCount(breakdown.value, "reasoningOutputTokens");
    var input := Max(inputTokens - cacheRead, 0);
    Some(Usage(input, output, cacheRead, reasoning, input + output + cacheRead))
  }

  /** The text of an `agentMessage` item, if it is one and has a text. */
  function AgentText(raw: Option<Json>): Option<string> {
    var item := AsRecord(raw);
    if Field(item, "type") == Some(Str("agentMessage")) then StringAt(item, "text") else None
  }

  /** The text of the last agent message that has one. */
  function LastAgentText(items: seq<Json>): Option<string> {
    if items == [] then None
    else Or(AgentText(Some(items[|items| - 1])), LastAgentText(items[..|items| - 1]))
  }

  function FinalMessageFromItems(items: Option<Json>): Option<string> {
    if items.Some? && items.value.Arr? then LastAgentText(items.value.items) else None
  }

  method ScanItems(items: seq<Json>) returns (text: Option<string>)
    ensures text == LastAgentText(items)
    ensures text.Some? <==> exists i :: 0 <= i < |items| && AgentText(Some(items[i])).Some?
  {
    text := None;
    for i := 0 to |items|
      invariant text == LastAgentText(items[..i])
      invariant text.Some? <==> exists j :: 0 <= j < i && AgentText(Some(items[j])).Some?
    {
      assert items[..i + 1][..i] == items[..i];
      text := Or(AgentText(Some(items[i])), text);
    }
    assert items[..|items|] == items;
  }

  // ----- the conversation state -----

  /** The messages the client writes, without their static parameters. */
  datatype Outgoing =
    | Initialize(id: int)
    | Initialized
    | ThreadStart(id: int)
    | TurnStart(id: int, threadId: string)
    | Interrupt(id: int, threadId: string, turnId: string)
    | Reply(to: Json, method_: string)

  datatype AppServerExit = AppServerExit(exitCode: Option<int>, stderr: string, aborted: bool,
                                         spawnError: Option<string>)

  /** Where the generator is suspended: reading the next message; between yielding `turn/completed` and
      computing the terminal frame; awaiting the child's exit; or finished. */
  datatype Phase = Reading | Completing(turn: Option<Record>) | AwaitingExit | Finished

  datatype State = State(
    phase: Phase,
    nextId: int,
    pending: set<int>,
    initId: int,
    threadStartId: int,
    turnStartId: int,
    interruptId: int,
    ownThreadId: Option<string>,
    ownTurnId: Option<string>,
    observedModel: Option<string>,
    finalMessage: Option<string>,
    usage: Option<Usage>,
    interruptSent: bool,
    killed: bool,
    sent: seq<Outgoing>,
    yielded: seq<Frame>)

  /** One scheduling step. An input that does not apply in the current phase changes nothing. */
  datatype Input =
    | Message(record: Record)
    | Abort
    | Resume
    | StreamEnd
    | ChildExit(exit: AppServerExit)

  const PARSE_ERROR_KEY := "__rennetParseError"

  function Initial(preAborted: bool): State {
    State(Reading, 1, {1}, 1, -1, -1, -1, None, None, None, None, None, preAborted, preAborted, [Initialize(1)], [])
  }

  // ----- pure helpers of the message loop -----

  function NotificationTurnId(p: Option<Record>): Option<string> {
    Or(StringAt(p, "turnId"), StringAt(AsRecord(Field(p, "turn")), "id"))
  }

  predicate Belongs(ownThreadId: Option<string>, ownTurnId: Option<string>, p: Option<Record>) {
    var threadId, turnId := StringAt(p, "threadId"), NotificationTurnId(p);
    && !(ownThreadId.Some? && threadId.Some? && threadId != ownThreadId)
    && !(ownTurnId.Some? && turnId.Some? && turnId != ownTurnId)
  }

  /** A JavaScript-truthy string survives; the empty one is dropped. */
  function Truthy(s: Option<string>): Option<string> {
    if s == Some("") then None else s
  }

  function Failure(s: State, error: TurnError): TurnResult {
    TurnResult(Failed, s.finalMessage, None, None, Some(error))
  }

  function CancelledResult(s: State): TurnResult {
    TurnResult(Cancelled, s.finalMessage, s.usage, Truthy(s.observedModel), None)
  }

  function TerminalFromTurn(s: State, turn: Option<Record>): TurnResult {
    var status := StringAt(turn, "status");
    if status == Some("interrupted") || s.interruptSent then
      CancelledResult(s)
    else if status == Some("failed") then
      var te := AsRecord(Field(turn, "error"));
      var message := Or(StringAt(te, "message"), Some("codex turn failed")).value;
      TurnResult(Failed, s.finalMessage, s.usage, Truthy(s.observedModel),
                 Some(TurnError(FromTurn, message, Field(te, "codexErrorInfo"), None, None)))
    else
      TurnResult(Completed, Or(s.finalMessage, FinalMessageFromItems(Field(turn, "items"))),
                 s.usage, Truthy(s.observedModel), None)
  }

  /** An integer as it prints. */
  function Number(n: int): string { if n < 0 then "-" + Decimal(-n) else Decimal(n) }

  function ExitMessage(exit: AppServerExit): string {
    var code := if exit.exitCode.Some? then Number(exit.exitCode.value) else "unknown";
    var said := Trim(exit.stderr);
    "codex app-server exited before completing the turn (code " + code + ")" + if said == "" then "" else ": " + said
  }

  function ExitResult(s: State, exit: AppServerExit): TurnResult {
    if exit.spawnError.Some? then
      Failure(s, TurnError(FromSpawn, exit.spawnError.value, None, None, None))
    else if exit.aborted || s.interruptSent then
      CancelledResult(s)
    else
      Failure(s, TurnError(FromExit, ExitMessage(exit), None, None, exit.exitCode))
  }

  // ----- specification of each step -----

  function Yield(s: State, frame: Frame): State { s.(yielded := s.yielded + [frame]) }

  function Send(s: State, message: Outgoing): State { s.(sent := s.sent + [message]) }

  /** Yield the terminal frame and run the `finally` block, which kills the child. */
  function Finish(s: State, result: TurnResult): State {
    Yield(s, Terminal(result)).(phase := Finished, killed := true)
  }

  /** Allocate the next request id and record it as pending. */
  function Allocate(s: State): State {
    s.(nextId := s.nextId + 1, pending := s.pending + {s.nextId + 1})
  }

  function OnAbort(s: State): State {
    if s.interruptSent then s
    else if s.ownThreadId.Some? && s.ownTurnId.Some? then
      var t := Allocate(s);
      var u := Send(t, Interrupt(t.nextId, s.ownThreadId.value, s.ownTurnId.value));
      u.(interruptId := t.nextId, interruptSent := true)
    else
      s.(interruptSent := true, killed := true)
  }

  function OnErrorResponse(s: State, m: Record): State {
    var nid := NumberAt(Some(m), "id");
    if nid == Some(s.interruptId) then s
    else if nid.Some? && nid.value in s.pending then
      var err := AsRecord(Field(Some(m), "error"));
      var message := Or(StringAt(err, "message"), Some("codex app-server error")).value;
      Finish(s, Failure(s, TurnError(FromJsonRpc, message, None, NumberAt(err, "code"), None)))
    else
      Yield(s, Native(m))
  }

  function OnThreadStarted(s: State, result: Option<Record>): State {
    var threadId := StringAt(AsRecord(Field(result, "thread")), "id");
    var t := s.(ownThreadId := threadId, observedModel := Or(StringAt(result, "model"), s.observedModel));
    if threadId.None? then
      Finish(t, Failure(t, TurnError(FromJsonRpc, "thread/start returned no thread id", None, None, None)))
    else
      var u := Allocate(t);
      Send(u, TurnStart(u.nextId, threadId.value)).(turnStartId := u.nextId)
  }

  function OnInitialized(s: State): State {
    var t := Allocate(Send(s, Initialized));
    Send(t, ThreadStart(t.nextId)).(threadStartId := t.nextId)
  }

  function OnSuccessResponse(s: State, m: Record): State {
    var nid := NumberAt(Some(m), "id");
    var result := AsRecord(Field(Some(m), "result"));
    if nid == Some(s.initId) then
      OnInitialized(s)
    else if nid == Some(s.threadStartId) then
      OnThreadStarted(s, result)
    else if nid == Some(s.turnStartId) then
      s.(ownTurnId := Or(s.ownTurnId, StringAt(AsRecord(Field(result, "turn")), "id")))
    else
      Yield(s, Native(m))
  }

  /** The bookkeeping of an owned notification, before it is yielded. */
  function Absorb(s: State, name: string, p: Option<Record>): State {
    if name == "turn/started" then
      s.(ownTurnId := Or(s.ownTurnId, StringAt(AsRecord(Field(p, "turn")), "id")))
    else if name == "item/completed" then
      s.(finalMessage := Or(AgentText(Field(p, "item")), s.finalMessage))
    else if name == "thread/tokenUsage/updated" then
      var tu := AsRecord(Field(p, "tokenUsage"));
      s.(usage := Or(MapTokenUsage(Or(AsRecord(Field(tu, "total")), AsRecord(Field(tu, "last")))), s.usage))
    else s
  }

  function OnNotification(s: State, m: Record, name: string): State {
    var p := AsRecord(Field(Some(m), "params"));
    if !Belongs(s.ownThreadId, s.ownTurnId, p) then Yield(s, Foreign(m))
    else
      var t := Yield(Absorb(s, name, p), Native(m));
      if name == "turn/completed" then t.(phase := Completing(AsRecord(Field(p, "turn")))) else t
  }

  predicate IsParseError(m: Record) { StringAt(Some(m), PARSE_ERROR_KEY).Some? }

  /** A response carries an id and no method; JSON-RPC 2.0, section 5. */
  predicate IsResponse(m: Record) {
    !IsParseError(m) && StringAt(Some(m), "method").None? && Present(m, "id")
  }

  /** A notification carries a method and no id; JSON-RPC 2.0, section 4.1. */
  predicate IsNotification(m: Record) {
    !IsParseError(m) && StringAt(Some(m), "method").Some? && !Present(m, "id")
  }

  function OnMessage(s: State, m: Record): State {
    if IsParseError(m) then
      var line := StringAt(Some(m), PARSE_ERROR_KEY).value;
      Finish(s, Failure(s, TurnError(FromParse, "unparseable codex app-server line: " + line, None, None, None)))
    else
      var name, hasId := StringAt(Some(m), "method"), Present(m, "id");
      if name.None? && hasId then
        if Present(m, "error") then OnErrorResponse(s, m) else OnSuccessResponse(s, m)
      else if name.Some? && hasId then
        Yield(Send(s, Reply(m["id"], name.value)), Native(m))
      else if name.Some? then
        OnNotification(s, m, name.value)
      else
        Yield(s, Native(m))
  }

  function Step(s: State, input: Input): State {
    match input
    case Message(m) => if s.phase == Reading then OnMessage(s, m) else s
    case Abort => if s.phase == Finished then s else OnAbort(s)
    case Resume => if s.phase.Completing? then Finish(s, TerminalFromTurn(s, s.phase.turn)) else s
    case StreamEnd => if s.phase == Reading then s.(phase := AwaitingExit) else s
    case ChildExit(exit) => if s.phase == AwaitingExit then Finish(s, ExitResult(s, exit)) else s
  }

  function Run(s: State, inputs: seq<Input>): State {
    Machine.Run(Step, s, inputs)
  }

  // ----- the generator -----

  class TurnRunner {
    var phase: Phase
    var nextId: int
    var pending: set<int>
    const initId: int
    var threadStartId: int
    var turnStartId: int
    var interruptId: int
    var ownThreadId: Option<string>
    var ownTurnId: Option<string>
    var observedModel: Option<string>
    var finalMessage: Option<string>
    var usage: Option<Usage>
    var interruptSent: bool
    var killed: bool
    var sent: seq<Outgoing>
    var yielded: seq<Frame>

    ghost function View(): State
      reads this
    {
      State(phase, nextId, pending, initId, threadStartId, turnStartId, interruptId, ownThreadId, ownTurnId,
            observedModel, finalMessage, usage, interruptSent, killed, sent, yielded)
    }

    constructor (signalAborted: bool)
      ensures View() == Initial(signalAborted)
    {
      phase, nextId, pending, initId := Reading, 1, {1}, 1;
      threadStartId, turnStartId, interruptId := -1, -1, -1;
      ownThreadId, ownTurnId, observedModel, finalMessage, usage := None, None, None, None, None;
      interruptSent, killed := signalAborted, signalAborted;
      sent, yielded := [Initialize(1)], [];
    }

    /** `send` with a fresh request id. */
    method NextRequestId() returns (id: int)
      modifies this`nextId, this`pending
      ensures View() == Allocate(old(View())) && id == nextId
    {
      nextId := nextId + 1;
      pending := pending + {nextId};
      id := nextId;
    }

    method Terminate(result: TurnResult)
      modifies this
      ensures View() == Finish(old(View()), result)
    {
      yielded := yielded + [Terminal(result)];
      killed := true;
      phase := Finished;
    }

    method AbortFired()
      modifies this
      ensures View() == Step(old(View()), Abort)
    {
      if phase == Finished || interruptSent { return; }
      interruptSent := true;
      if ownThreadId.Some? && ownTurnId.Some? {
        var id := NextRequestId();
        sent := sent + [Interrupt(id, ownThreadId.value, ownTurnId.value)];
        interruptId := id;
      } else {
        killed := true;
      }
    }

    method ErrorResponded(m: Record)
      modifies this
      ensures View() == OnErrorResponse(old(View()), m)
    {
      var nid := NumberAt(Some(m), "id");
      if nid == Some(interruptId) { return; }
      if nid.Some? && nid.value in pending {
        var err := AsRecord(Field(Some(m), "error"));
        var message := Or(StringAt(err, "message"), Some("codex app-server error")).value;
        var error := TurnError(FromJsonRpc, message, None, NumberAt(err, "code"), None);
        Terminate(TurnResult(Failed, finalMessage, None, None, Some(error)));
      } else {
        yielded := yielded + [Native(m)];
      }
    }

    method ThreadStarted(result: Option<Record>)
      modifies this
      ensures View() == OnThreadStarted(old(View()), result)
    {
      ownThreadId := StringAt(AsRecord(Field(result, "thread")), "id");
      observedModel := Or(StringAt(result, "model"), observedModel);
      if ownThreadId.None? {
        var error := TurnError(FromJsonRpc, "thread/start returned no thread id", None, None, None);
        Terminate(TurnResult(Failed, finalMessage, None, None, Some(error)));
      } else {
        StartTurn(ownThreadId.value);
      }
    }

    method StartTurn(threadId: string)
      modifies this
      ensures View() ==
              (var u := Allocate(old(View())); Send(u, TurnStart(u.nextId, threadId)).(turnStartId := u.nextId))
    {
      var id := NextRequestId();
      sent := sent + [TurnStart(id, threadId)];
      turnStartId := id;
    }

    method SuccessResponded(m: Record)
      modifies this
      ensures View() == OnSuccessResponse(old(View()), m)
    {
      var nid := NumberAt(Some(m), "id");
      var result := AsRecord(Field(Some(m), "result"));
      if nid == Some(initId) {
        sent := sent + [Initialized];
        var id := NextRequestId();
        sent := sent + [ThreadStart(id)];
        threadStartId := id;
      } else if nid == Some(threadStartId) {
        ThreadStarted(result);
      } else if nid == Some(turnStartId) {
        ownTurnId := Or(ownTurnId, StringAt(AsRecord(Field(result, "turn")), "id"));
      } else {
        yielded := yielded + [Native(m)];
      }
    }

    method Absorbs(name: string, p: Option<Record>)
      modifies this
      ensures View() == Absorb(old(View()), name, p)
    {
      if name == "turn/started" {
        ownTurnId := Or(ownTurnId, StringAt(AsRecord(Field(p, "turn")), "id"));
      } else if name == "item/completed" {
        finalMessage := Or(AgentText(Field(p, "item")), finalMessage);
      } else if name == "thread/tokenUsage/updated" {
        var tu := AsRecord(Field(p, "tokenUsage"));
        usage := Or(MapTokenUsage(Or(AsRecord(Field(tu, "total")), AsRecord(Field(tu, "last")))), usage);
      }
    }

    method Notified(m: Record)
      requires phase == Reading && IsNotification(m)
      modifies this
      ensures View() == Step(old(View()), Message(m))
    {
      var name := StringAt(Some(m), "method").value;
      var p := AsRecord(Field(Some(m), "params"));
      if !Belongs(ownThreadId, ownTurnId, p) {
        yielded := yielded + [Foreign(m)];
        return;
      }
      Absorbs(name, p);
      yielded := yielded + [Native(m)];
      if name == "turn/completed" {
        phase := Completing(AsRecord(Field(p, "turn")));
      }
    }

    method MessageRead(m: Record)
      requires phase == Reading
      modifies this
      ensures View() == Step(old(View()), Message(m))
    {
      if IsParseError(m) {
        var line := StringAt(Some(m), PARSE_ERROR_KEY).value;
        var error := TurnError(FromParse, "unparseable codex app-server line: " + line, None, None, None);
        Terminate(TurnResult(Failed, finalMessage, None, None, Some(error)));
      } else if IsResponse(m) {
        if Present(m, "error") { ErrorResponded(m); } else { SuccessResponded(m); }
      } else if IsNotification(m) {
        Notified(m);
      } else {
        if StringAt(Some(m), "method").Some? {
          sent := sent + [Reply(m["id"], StringAt(Some(m), "method").value)];
        }
        yielded := yielded + [Native(m)];
      }
    }

    /** Resumed after yielding `turn/completed`: compute the terminal frame from the state as it is now. */
    method TurnCompleted()
      requires phase.Completing?
      modifies this
      ensures View() == Step(old(View()), Resume)
    {
      var turn := phase.turn;
      var status := StringAt(turn, "status");
      var model := Truthy(observedModel);
      if status == Some("interrupted") || interruptSent {
        Terminate(TurnResult(Cancelled, finalMessage, usage, model, None));
      } else if status == Some("failed") {
        var te := AsRecord(Field(turn, "error"));
        var message := Or(StringAt(te, "message"), Some("codex turn failed")).value;
        Terminate(TurnResult(Failed, finalMessage, usage, model,
                             Some(TurnError(FromTurn, message, Field(te, "codexErrorInfo"), None, None))));
      } else {
        var items := Field(turn, "items");
        var fallback := None;
        if items.Some? && items.value.Arr? { fallback := ScanItems(items.value.items); }
        Terminate(TurnResult(Completed, Or(finalMessage, fallback), usage, model, None));
      }
    }

    /** The message stream ended first, and the child's exit has been awaited. */
    method Exited(exit: AppServerExit)
      requires phase == AwaitingExit
      modifies this
      ensures View() == Step(old(View()), ChildExit(exit))
    {
      if exit.spawnError.Some? {
        Terminate(TurnResult(Failed, finalMessage, None, None,
                             Some(TurnError(FromSpawn, exit.spawnError.value, None, None, None))));
      } else if exit.aborted || interruptSent {
        Terminate(TurnResult(Cancelled, finalMessage, usage, Truthy(observedModel), None));
      } else {
        var error := TurnError(FromExit, ExitMessage(exit), None, None, exit.exitCode);
        Terminate(TurnResult(Failed, finalMessage, None, None, Some(error)));
      }
    }

    /** Drive the generator and its abort listener along a schedule. */
    method Drive(inputs: seq<Input>)
      modifies this
      ensures View() == Run(old(View()), inputs)
    {
      for i := 0 to |inputs|
        invariant View() == Run(old(View()), inputs[..i])
      {
        assert inputs[..i + 1] == inputs[..i] + [inputs[i]];
        Machine.RunAppend(Step, old(View()), inputs[..i], [inputs[i]]);
        var input := inputs[i];
        match input {
          case Message(m) => if phase == Reading { MessageRead(m); }
          case Abort => AbortFired();
          case Resume => if phase.Completing? { TurnCompleted(); }
          case StreamEnd => if phase == Reading { phase := AwaitingExit; }
          case ChildExit(exit) => if phase == AwaitingExit { Exited(exit); }
        }
      }
      assert inputs[..|inputs|] == inputs;
    }
  }
}
