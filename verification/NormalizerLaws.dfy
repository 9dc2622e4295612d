/** What the normalizer says, read off the frames: which event an item becomes, and how the terminal frame settles the
    session given everything streamed before it. */
module NormalizerLaws {
  import opened Json
  import opened Text
  import opened CodexAppServer
  import opened CodexNormalizer
  import opened CodexSession
  import opened CodexEndToEnd
  import opened RunnerLaws
  import opened RunnerReads
  import CodexExec

  // ----- what was streamed -----

  predicate HasTag(m: Record, tag: string) { "rennet" in m && m["rennet"] == Str(tag) }

  /** A record of this method that carries none of the adapter's own tags. */
  predicate Speaks(frame: Frame, name: string) {
    && frame.Native? && TextAt(frame.record, ["method"]) == Some(name)
    && !HasTag(frame.record, "turn-result") && !HasTag(frame.record, "foreign")
  }

  /** A completed agent message; without a text it says the empty one. */
  predicate StreamsText(frame: Frame, text: string) {
    && Speaks(frame, "item/completed")
    && TextAt(frame.record, ["params", "item", "type"]) == Some("agentMessage")
    && text == TextOr(frame.record, ["params", "item", "text"], "")
  }

  predicate StreamsUsage(frame: Frame, u: Usage) {
    && Speaks(frame, "thread/tokenUsage/updated")
    && var total := At(Obj(frame.record), ["params", "tokenUsage", "total"]);
       var last := At(Obj(frame.record), ["params", "tokenUsage", "last"]);
       if IsObject(total) then IsUsageOf(u, total.value) else IsObject(last) && IsUsageOf(u, last.value)
  }

  predicate StreamsError(frame: Frame, e: TurnError) {
    && Speaks(frame, "error")
    && e == TurnError(FromTurn, TextOr(frame.record, ["params", "error", "message"], "codex error"),
                      At(Obj(frame.record), ["params", "error", "codexErrorInfo"]), None, None)
  }

  /** What the normalizer remembers is the last that was streamed of each kind. */
  ghost predicate Remembers(frames: seq<Frame>, s: NormState) {
    && IsLast(frames, StreamsText, s.lastMessageText)
    && IsLast(frames, StreamsUsage, s.lastUsage)
    && IsLast(frames, StreamsError, s.seenError)
    && (s.terminated <==> exists k :: 0 <= k < |frames| && IsTerminal(frames[k]))
  }

  lemma TagReads(m: Record)
    ensures ClaimsTerminal(m) <==> HasTag(m, "turn-result")
    ensures TextAt(m, ["method"]) == StringAt(Some(m), "method")
  {
    AtOne(Obj(m), "method");
  }

  lemma TerminalGrows(frames: seq<Frame>, frame: Frame)
    ensures (exists k :: 0 <= k < |frames + [frame]| && IsTerminal((frames + [frame])[k])) <==>
            (exists k :: 0 <= k < |frames| && IsTerminal(frames[k])) || IsTerminal(frame)
  {
    var all := frames + [frame];
    if k :| 0 <= k < |frames| && IsTerminal(frames[k]) { assert IsTerminal(all[k]); }
    if IsTerminal(frame) { assert IsTerminal(all[|frames|]); }
    if k :| 0 <= k < |all| && IsTerminal(all[k]) { assert k < |frames| ==> IsTerminal(frames[k]); }
  }

  /** A frame that streams nothing. */
  ghost predicate StreamsNothing(frame: Frame) {
    !Speaks(frame, "item/completed") && !Speaks(frame, "thread/tokenUsage/updated") && !Speaks(frame, "error")
  }

  lemma NothingStreamed(frames: seq<Frame>, s: NormState, frame: Frame, t: NormState)
    requires Remembers(frames, s) && StreamsNothing(frame)
    requires t == s.(sessionStarted := t.sessionStarted, terminated := s.terminated || IsTerminal(frame))
    ensures Remembers(frames + [frame], t)
  {
    NothingSaid(frames, frame, StreamsText, s.lastMessageText);
    NothingSaid(frames, frame, StreamsUsage, s.lastUsage);
    NothingSaid(frames, frame, StreamsError, s.seenError);
    TerminalGrows(frames, frame);
  }

  lemma SpeakingTranslates(spec: TurnSpec, s: NormState, frame: Frame, name: string)
    requires Speaks(frame, name)
    ensures Translate(spec, s, frame) ==
            TranslateNotification(spec, s, name, AsRecord(Field(Some(frame.record), "params")))
    ensures !IsTerminal(frame)
  {
    TagReads(frame.record);
  }

  lemma ItemNext(spec: TurnSpec, s: NormState, m: Record)
    ensures TranslateItem(spec, s, "item/completed", AsRecord(Field(Some(m), "params"))).next ==
            if TextAt(m, ["params", "item", "type"]) == Some("agentMessage")
            then s.(lastMessageText := Some(TextOr(m, ["params", "item", "text"], ""))) else s
  {
    AtThree(Obj(m), "params", "item", "type");
    AtThree(Obj(m), "params", "item", "text");
  }

  lemma ItemStreamed(spec: TurnSpec, frames: seq<Frame>, s: NormState, frame: Frame)
    requires Remembers(frames, s) && Speaks(frame, "item/completed")
    ensures Remembers(frames + [frame], Translate(spec, s, frame).next)
  {
    var m := frame.record;
    SpeakingTranslates(spec, s, frame, "item/completed");
    ItemNext(spec, s, m);
    ItemGathered(frames, s, frame, Translate(spec, s, frame).next);
  }

  lemma ItemGathered(frames: seq<Frame>, s: NormState, frame: Frame, t: NormState)
    requires Remembers(frames, s) && Speaks(frame, "item/completed") && !IsTerminal(frame)
    requires t == if TextAt(frame.record, ["params", "item", "type"]) == Some("agentMessage")
                  then s.(lastMessageText := Some(TextOr(frame.record, ["params", "item", "text"], ""))) else s
    ensures Remembers(frames + [frame], t)
  {
    TerminalGrows(frames, frame);
    NothingSaid(frames, frame, StreamsUsage, s.lastUsage);
    NothingSaid(frames, frame, StreamsError, s.seenError);
    if TextAt(frame.record, ["params", "item", "type"]) == Some("agentMessage") {
      SaidAgain(frames, frame, StreamsText, TextOr(frame.record, ["params", "item", "text"], ""));
    } else {
      NothingSaid(frames, frame, StreamsText, s.lastMessageText);
    }
  }

  lemma UsageNext(spec: TurnSpec, s: NormState, frame: Frame, t: NormState)
    requires Speaks(frame, "thread/tokenUsage/updated")
    requires t == TranslateNotification(spec, s, "thread/tokenUsage/updated",
                                        AsRecord(Field(Some(frame.record), "params"))).next
    ensures t == s.(lastUsage := t.lastUsage)
    ensures (t.lastUsage.Some? && StreamsUsage(frame, t.lastUsage.value))
            || (t == s && forall u :: !StreamsUsage(frame, u))
  {
    var m := frame.record;
    var tu := AsRecord(Field(AsRecord(Field(Some(m), "params")), "tokenUsage"));
    var breakdown := Or(AsRecord(Field(tu, "total")), AsRecord(Field(tu, "last")));
    AtThree(Obj(m), "params", "tokenUsage", "total");
    AtThree(Obj(m), "params", "tokenUsage", "last");
    if breakdown.Some? { UsageReads(breakdown.value); }
  }

  lemma UsageStreamed(spec: TurnSpec, frames: seq<Frame>, s: NormState, frame: Frame)
    requires Remembers(frames, s) && Speaks(frame, "thread/tokenUsage/updated")
    ensures Remembers(frames + [frame], Translate(spec, s, frame).next)
  {
    SpeakingTranslates(spec, s, frame, "thread/tokenUsage/updated");
    UsageNext(spec, s, frame, Translate(spec, s, frame).next);
    UsageGathered(frames, s, frame, Translate(spec, s, frame).next);
  }

  lemma UsageGathered(frames: seq<Frame>, s: NormState, frame: Frame, t: NormState)
    requires Remembers(frames, s) && Speaks(frame, "thread/tokenUsage/updated") && !IsTerminal(frame)
    requires t == s.(lastUsage := t.lastUsage)
    requires (t.lastUsage.Some? && StreamsUsage(frame, t.lastUsage.value))
             || (t == s && forall u :: !StreamsUsage(frame, u))
    ensures Remembers(frames + [frame], t)
  {
    TerminalGrows(frames, frame);
    NothingSaid(frames, frame, StreamsText, s.lastMessageText);
    NothingSaid(frames, frame, StreamsError, s.seenError);
    if t.lastUsage.Some? && StreamsUsage(frame, t.lastUsage.value) {
      SaidAgain(frames, frame, StreamsUsage, t.lastUsage.value);
    } else {
      NothingSaid(frames, frame, StreamsUsage, s.lastUsage);
    }
  }

  lemma ErrorNext(m: Record)
    ensures NativeError(AsRecord(Field(Some(m), "params"))) ==
            TurnError(FromTurn, TextOr(m, ["params", "error", "message"], "codex error"),
                      At(Obj(m), ["params", "error", "codexErrorInfo"]), None, None)
  {
    AtThree(Obj(m), "params", "error", "message");
    AtThree(Obj(m), "params", "error", "codexErrorInfo");
  }

  lemma ErrorStreamed(spec: TurnSpec, frames: seq<Frame>, s: NormState, frame: Frame)
    requires Remembers(frames, s) && Speaks(frame, "error")
    ensures Remembers(frames + [frame], Translate(spec, s, frame).next)
  {
    SpeakingTranslates(spec, s, frame, "error");
    ErrorNext(frame.record);
    ErrorGathered(frames, s, frame, NativeError(AsRecord(Field(Some(frame.record), "params"))));
  }

  lemma ErrorGathered(frames: seq<Frame>, s: NormState, frame: Frame, e: TurnError)
    requires Remembers(frames, s) && StreamsError(frame, e) && !IsTerminal(frame)
    ensures Remembers(frames + [frame], s.(seenError := Some(e)))
  {
    TerminalGrows(frames, frame);
    NothingSaid(frames, frame, StreamsText, s.lastMessageText);
    NothingSaid(frames, frame, StreamsUsage, s.lastUsage);
    SaidAgain(frames, frame, StreamsError, e);
  }

  lemma OtherStreamed(spec: TurnSpec, s: NormState, frame: Frame)
    requires StreamsNothing(frame)
    ensures var t := Translate(spec, s, frame).next;
            t == s.(sessionStarted := t.sessionStarted, terminated := s.terminated || IsTerminal(frame))
  {
    if frame.Native? { TagReads(frame.record); }
  }

  lemma FrameIsRemembered(spec: TurnSpec, frames: seq<Frame>, s: NormState, frame: Frame)
    requires Remembers(frames, s)
    ensures Remembers(frames + [frame], Translate(spec, s, frame).next)
  {
    if Speaks(frame, "item/completed") {
      ItemStreamed(spec, frames, s, frame);
    } else if Speaks(frame, "thread/tokenUsage/updated") {
      UsageStreamed(spec, frames, s, frame);
    } else if Speaks(frame, "error") {
      ErrorStreamed(spec, frames, s, frame);
    } else {
      OtherStreamed(spec, s, frame);
      NothingStreamed(frames, s, frame, Translate(spec, s, frame).next);
    }
  }

  lemma {:induction false} StreamIsRemembered(spec: TurnSpec, past: seq<Frame>, s: NormState, frames: seq<Frame>)
    requires Remembers(past, s)
    ensures Remembers(past + frames, NormAfter(spec, s, frames))
    decreases frames
  {
    if frames == [] {
      assert past + frames == past;
    } else {
      FrameIsRemembered(spec, past, s, frames[0]);
      StreamIsRemembered(spec, past + [frames[0]], Translate(spec, s, frames[0]).next, frames[1..]);
      assert past + [frames[0]] + frames[1..] == past + frames;
    }
  }

  /** After any stream the normalizer remembers the last of each kind, and that it saw a terminal frame. */
  lemma NormalizerRemembers(spec: TurnSpec, frames: seq<Frame>)
    ensures Remembers(frames, NormAfter(spec, FRESH, frames))
  {
    StreamIsRemembered(spec, [], FRESH, frames);
    assert [] + frames == frames;
  }

  // ----- how the terminal frame settles the session -----

  /** The text of the turn: the terminal frame's, else the last that was streamed. */
  ghost predicate IsFinalText(frames: seq<Frame>, r: TurnResult, text: Option<string>) {
    if r.finalMessage.Some? then text == r.finalMessage else IsLast(frames, StreamsText, text)
  }

  ghost predicate IsFinalUsage(frames: seq<Frame>, r: TurnResult, usage: Option<Usage>) {
    if r.usage.Some? then usage == r.usage else IsLast(frames, StreamsUsage, usage)
  }

  ghost predicate IsFinalError(frames: seq<Frame>, r: TurnResult, e: TurnError) {
    if r.error.Some? then e == r.error.value
    else IsLast(frames, StreamsError, Some(e))
         || (IsLast(frames, StreamsError, None) && e == TurnError(FromExit, "codex turn failed", None, None, None))
  }

  lemma {:induction false} Utf8Append(text: string, last: char)
    ensures Utf8(text + [last]) == Utf8(text) + Utf8Char(last)
  {
    if text == "" {
      assert text + [last] == [last] && [last][1..] == "";
    } else {
      assert (text + [last])[1..] == text[1..] + [last];
      Utf8Append(text[1..], last);
      assert Utf8Char(text[0]) + (Utf8(text[1..]) + Utf8Char(last)) ==
             (Utf8Char(text[0]) + Utf8(text[1..])) + Utf8Char(last);
    }
  }

  /** What is held against the cap is the size of the text in UTF-8. */
  lemma {:induction false} Utf8LengthIsSize(text: string)
    ensures Utf8Length(text) == |Utf8(text)|
  {
    if text != "" {
      var init, last := text[..|text| - 1], text[|text| - 1];
      Utf8LengthIsSize(init);
      Utf8Append(init, last);
      assert text == init + [last];
    }
  }

  /** The body of a completed turn: what its text parses to, nulls stripped, if a schema was requested. */
  ghost predicate IsBody(spec: TurnSpec, text: Option<string>, body: Option<Json>) {
    && (body.Some? <==> spec.schemaRequested && text.Some? && spec.parse(text.value).Some?)
    && (body.Some? ==> body.value == CodexExec.StripNullDeep(spec.parse(text.value).value))
  }

  ghost predicate Settles(spec: TurnSpec, frames: seq<Frame>, r: TurnResult, outcome: SessionOutcome) {
    exists text, usage :: IsFinalText(frames, r, text) && IsFinalUsage(frames, r, usage)
                          && SettlesWith(spec, frames, r, text, usage, outcome)
  }

  /** A cancelled turn is partial if it has a text; a failed one ends with its error; a completed one hands over its
      text, body and usage, unless the text is larger than the turn's cap, which fails it. */
  ghost predicate SettlesWith(spec: TurnSpec, frames: seq<Frame>, r: TurnResult, text: Option<string>,
                              usage: Option<Usage>, outcome: SessionOutcome)
  {
    var size := if text.Some? then |Utf8(text.value)| else 0;
    match r.status
    case Cancelled => outcome == EndedCancelled(text.Some?)
    case Failed => outcome.EndedFailed? && outcome.error.Mapped? && IsFinalError(frames, r, outcome.error.native)
    case Completed =>
      if spec.outputByteCap.Some? && size > spec.outputByteCap.value then
        outcome == EndedFailed(OverOutputCap(size, spec.outputByteCap.value))
      else
        && outcome.EndedCompleted? && outcome.usage == usage && IsBody(spec, text, outcome.structuredOutput)
        && outcome.finalText == if text.Some? then text.value else ""
  }

  lemma OutcomeSettles(spec: TurnSpec, frames: seq<Frame>, s: NormState, r: TurnResult)
    requires Remembers(frames, s)
    ensures Settles(spec, frames, r, OutcomeOf(spec, s, r))
  {
    var text, usage := Or(r.finalMessage, s.lastMessageText), Or(r.usage, s.lastUsage);
    if text.Some? { Utf8LengthIsSize(text.value); }
    assert IsFinalText(frames, r, text) && IsFinalUsage(frames, r, usage);
    assert SettlesWith(spec, frames, r, text, usage, OutcomeOf(spec, s, r));
  }

  /** What a terminal frame says of the turn; a record that claims to be one says it in its own fields. */
  ghost predicate Reads(frame: Frame, r: TurnResult) {
    match frame
    case Terminal(result) => r == result
    case Native(m) =>
      && (r.status == Cancelled <==> TextAt(m, ["status"]) == Some("cancelled"))
      && (r.status == Failed <==> TextAt(m, ["status"]) == Some("failed"))
      && r.finalMessage == TextAt(m, ["finalMessage"])
      && (r.usage == if "usage" in m && m["usage"] != Null then Some(AsClaimed(m["usage"])) else None)
      && (r.error.Some? <==> IsObject(At(Obj(m), ["error"])))
      && r.model == TextAt(m, ["model"])
      && (r.error.Some? ==> IsErrorOf(r.error.value, m))
    case _ => false
  }

  /** The sources a record may name for its error; any other, and none, is the turn. */
  function Sources(): map<string, ErrorSource> {
    map["jsonrpc" := FromJsonRpc, "exit" := FromExit, "spawn" := FromSpawn, "parse" := FromParse]
  }

  predicate IsErrorOf(e: TurnError, m: Record) {
    && e.message == TextOr(m, ["error", "message"], "")
    && e.codexErrorInfo == At(Obj(m), ["error", "codexErrorInfo"])
    && e.code == NumberIn(m, ["error", "code"]) && e.exitCode == NumberIn(m, ["error", "exitCode"])
    && match TextAt(m, ["error", "source"])
       case Some(name) => e.source == if name in Sources() then Sources()[name] else FromTurn
       case None => e.source == FromTurn
  }

  lemma ClaimIsRead(m: Record)
    ensures Reads(Native(m), ReadResult(m))
  {
    AtOne(Obj(m), "status");
    AtOne(Obj(m), "finalMessage");
    AtOne(Obj(m), "model");
    AtOne(Obj(m), "error");
    if ReadResult(m).error.Some? { ErrorIsRead(m); }
  }

  lemma ErrorIsRead(m: Record)
    requires ReadResult(m).error.Some?
    ensures IsErrorOf(ReadResult(m).error.value, m)
  {
    AtTwo(Obj(m), "error", "message");
    AtTwo(Obj(m), "error", "source");
    AtTwo(Obj(m), "error", "codexErrorInfo");
    AtTwo(Obj(m), "error", "code");
    AtTwo(Obj(m), "error", "exitCode");
  }

  // ----- what an item says -----

  predicate IsCall(itemType: string) { itemType in {"mcpToolCall", "dynamicToolCall"} }

  /** The kinds of items that are tools; of any other type only the type is said. */
  function ToolTypes(): map<string, ToolKind> {
    map["commandExecution" := Exec, "mcpToolCall" := Mcp, "dynamicToolCall" := Mcp, "fileChange" := Write,
        "webSearch" := Search]
  }

  /** A tool has started: its id if it has one, its name, its arguments or else itself. */
  ghost predicate SaysStart(item: Record, itemType: string, kind: EventKind) {
    && kind.ToolStarted? && itemType in ToolTypes() && kind.kind == ToolTypes()[itemType]
    && kind.startedId == TextAt(item, ["id"])
    && kind.name == TextOr(item, ["tool"], TextOr(item, ["command"], itemType))
    && Obj(kind.input) == if IsObject(At(Obj(item), ["arguments"])) then item["arguments"] else Obj(item)
  }

  /** A tool has put out its result: it went well unless it says it did not, by a status or by an error. */
  ghost predicate SaysOutput(spec: TurnSpec, item: Record, itemType: string, kind: EventKind) {
    && kind.ToolOutput?
    && kind.callId == TextOr(item, ["id"], itemType + ":unknown")
    && (kind.ok <==> TextOr(item, ["status"], "completed") == "completed" && !IsObject(At(Obj(item), ["error"])))
    && SaysResult(item, itemType, kind.output)
    && SaysRendering(spec, item, itemType, kind.output, kind.rendered)
  }

  predicate Has(item: Record, key: string) { key in item && item[key] != Null }

  /** A command puts out its text, a call its result or else its error, any other tool its changes or else itself. */
  predicate SaysResult(item: Record, itemType: string, output: Json) {
    if itemType == "commandExecution" then output == Str(TextOr(item, ["aggregatedOutput"], ""))
    else if IsCall(itemType) then
      if Has(item, "result") then output == item["result"]
      else if Has(item, "error") then output == item["error"] else output == Null
    else if Has(item, "changes") then output == item["changes"] else output == Obj(item)
  }

  predicate SaysRendering(spec: TurnSpec, item: Record, itemType: string, output: Json, text: string) {
    if itemType == "commandExecution" then output == Str(text)
    else if IsCall(itemType) && TextAt(item, ["error", "message"]).Some? then
      TextAt(item, ["error", "message"]) == Some(text)
    else text == spec.stringify(output)
  }

  /** What is said of a started or completed item: a file change is only ever completed, so its start is said then. */
  ghost predicate SaysItem(spec: TurnSpec, name: string, item: Record, kinds: seq<EventKind>) {
    var itemType := TextAt(item, ["type"]);
    if itemType.None? then kinds == [Passthrough(name)]
    else if itemType.value == "agentMessage" then
      if name == "item/completed" then kinds == [TextMessage(TextOr(item, ["text"], ""))]
      else kinds == [Passthrough("item:agentMessage")]
    else if itemType.value !in ToolTypes() then kinds == [Passthrough("item:" + itemType.value)]
    else if name == "item/started" then |kinds| == 1 && SaysStart(item, itemType.value, kinds[0])
    else if itemType.value == "fileChange" then
      |kinds| == 2 && SaysStart(item, itemType.value, kinds[0]) && SaysOutput(spec, item, itemType.value, kinds[1])
    else |kinds| == 1 && SaysOutput(spec, item, itemType.value, kinds[0])
  }

  lemma ItemFieldsRead(item: Record)
    ensures TextAt(item, ["type"]) == StringAt(Some(item), "type")
    ensures TextAt(item, ["text"]) == StringAt(Some(item), "text")
    ensures TextAt(item, ["id"]) == StringAt(Some(item), "id")
    ensures TextAt(item, ["tool"]) == StringAt(Some(item), "tool")
    ensures TextAt(item, ["command"]) == StringAt(Some(item), "command")
  {
    AtOne(Obj(item), "type");
    AtOne(Obj(item), "text");
    AtOne(Obj(item), "id");
    AtOne(Obj(item), "tool");
    AtOne(Obj(item), "command");
  }

  lemma StartIsSaid(item: Record, itemType: string)
    requires itemType in ToolTypes()
    ensures SaysStart(item, itemType, ToolStarted(StringAt(Some(item), "id"), ToolName(item, itemType),
                                                  ToolInput(item), ClassifyItemKind(itemType)))
  {
    ItemFieldsRead(item);
    AtOne(Obj(item), "arguments");
  }

  lemma OutputIsSaid(spec: TurnSpec, item: Record, itemType: string)
    ensures SaysOutput(spec, item, itemType, ToolOutputOf(spec, item, itemType))
  {
    AtOne(Obj(item), "id");
    AtOne(Obj(item), "status");
    AtOne(Obj(item), "error");
    AtOne(Obj(item), "aggregatedOutput");
    AtTwo(Obj(item), "error", "message");
  }

  lemma KindsAreTools(itemType: string)
    ensures ClassifyItemKind(itemType) == if itemType in ToolTypes() then ToolTypes()[itemType] else Other
  {}

  /** Every item is said as what it is. */
  lemma ItemIsSaid(spec: TurnSpec, s: NormState, frame: Frame, name: string)
    requires name in {"item/started", "item/completed"} && Speaks(frame, name)
    requires IsObject(At(Obj(frame.record), ["params", "item"]))
    ensures SaysItem(spec, name, At(Obj(frame.record), ["params", "item"]).value.fields,
                     Translate(spec, s, frame).kinds)
  {
    SpeakingTranslates(spec, s, frame, name);
    AtTwo(Obj(frame.record), "params", "item");
    ItemKindsAreSaid(spec, s, name, AsRecord(Field(Some(frame.record), "params")),
                     At(Obj(frame.record), ["params", "item"]).value.fields);
  }

  lemma ItemKindsAreSaid(spec: TurnSpec, s: NormState, name: string, params: Option<Record>, item: Record)
    requires name in {"item/started", "item/completed"} && AsRecord(Field(params, "item")) == Some(item)
    ensures SaysItem(spec, name, item, TranslateItem(spec, s, name, params).kinds)
  {
    ItemFieldsRead(item);
    var itemType := StringAt(Some(item), "type");
    if itemType.Some? {
      KindsAreTools(itemType.value);
      if itemType.value in ToolTypes() { StartIsSaid(item, itemType.value); }
      OutputIsSaid(spec, item, itemType.value);
    }
  }

  // ----- what every frame says -----

  /** One of the frames so far started the turn. */
  predicate HasStarted(frames: seq<Frame>) {
    exists k :: 0 <= k < |frames| && Speaks(frames[k], "turn/started")
  }

  /** What is said of a frame that does not end the session, given whether the turn had started before it. */
  ghost predicate SaysFrame(spec: TurnSpec, started: bool, frame: Frame, kinds: seq<EventKind>) {
    match frame
    case NonObject => kinds == [Passthrough("non-object")]
    case Foreign(_) => kinds == [Passthrough("foreign")]
    case Terminal(_) => false
    case Native(m) =>
      if HasTag(m, "foreign") then kinds == [Passthrough("foreign")]
      else match TextAt(m, ["method"])
           case None => kinds == [Passthrough("unknown")]
           case Some(name) => SaysNotice(spec, started, m, name, kinds)
  }

  ghost predicate SaysNotice(spec: TurnSpec, started: bool, m: Record, name: string, kinds: seq<EventKind>) {
    if name == "turn/started" && !started then kinds == [SessionStarted]
    else if name == "item/agentMessage/delta" then kinds == [TextDelta(TextOr(m, ["params", "delta"], ""))]
    else if name in {"item/started", "item/completed"} && IsObject(At(Obj(m), ["params", "item"])) then
      SaysItem(spec, name, At(Obj(m), ["params", "item"]).value.fields, kinds)
    else kinds == [Passthrough(name)]
  }

  lemma NoticeIsSaid(spec: TurnSpec, s: NormState, frame: Frame, name: string)
    requires Speaks(frame, name)
    ensures SaysNotice(spec, s.sessionStarted, frame.record, name, Translate(spec, s, frame).kinds)
  {
    var m := frame.record;
    SpeakingTranslates(spec, s, frame, name);
    AtTwo(Obj(m), "params", "delta");
    AtTwo(Obj(m), "params", "item");
    if name in {"item/started", "item/completed"} && IsObject(At(Obj(m), ["params", "item"])) {
      ItemIsSaid(spec, s, frame, name);
    }
  }

  lemma FrameIsSaid(spec: TurnSpec, s: NormState, frame: Frame)
    requires !IsTerminal(frame)
    ensures SaysFrame(spec, s.sessionStarted, frame, Translate(spec, s, frame).kinds)
  {
    if frame.Native? {
      TagReads(frame.record);
      if !HasTag(frame.record, "foreign") && TextAt(frame.record, ["method"]).Some? {
        NoticeIsSaid(spec, s, frame, TextAt(frame.record, ["method"]).value);
      }
    }
  }

  lemma StartedNext(spec: TurnSpec, s: NormState, frame: Frame)
    ensures Translate(spec, s, frame).next.sessionStarted <==> s.sessionStarted || Speaks(frame, "turn/started")
  {
    if frame.Native? { TagReads(frame.record); }
  }

  lemma StartedGrows(frames: seq<Frame>, frame: Frame)
    ensures HasStarted(frames + [frame]) <==> HasStarted(frames) || Speaks(frame, "turn/started")
  {
    var all := frames + [frame];
    if k :| 0 <= k < |frames| && Speaks(frames[k], "turn/started") { assert Speaks(all[k], "turn/started"); }
    if Speaks(frame, "turn/started") { assert Speaks(all[|frames|], "turn/started"); }
    if k :| 0 <= k < |all| && Speaks(all[k], "turn/started") {
      assert k < |frames| ==> Speaks(frames[k], "turn/started");
    }
  }

  lemma {:induction false} StartIsRemembered(spec: TurnSpec, before: seq<Frame>, s: NormState, frames: seq<Frame>)
    requires s.sessionStarted <==> HasStarted(before)
    ensures NormAfter(spec, s, frames).sessionStarted <==> HasStarted(before + frames)
    decreases frames
  {
    if frames == [] {
      assert before + frames == before;
    } else {
      StartedNext(spec, s, frames[0]);
      StartedGrows(before, frames[0]);
      StartIsRemembered(spec, before + [frames[0]], Translate(spec, s, frames[0]).next, frames[1..]);
      assert (before + [frames[0]]) + frames[1..] == before + frames;
    }
  }

  /** In any stream each frame that does not end the session is said as what it is, and the start of the turn once. */
  lemma EachFrameIsSaid(spec: TurnSpec, frames: seq<Frame>, frame: Frame)
    requires !IsTerminal(frame)
    ensures SaysFrame(spec, HasStarted(frames), frame, Translate(spec, NormAfter(spec, FRESH, frames), frame).kinds)
  {
    StartIsRemembered(spec, [], FRESH, frames);
    assert [] + frames == frames;
    FrameIsSaid(spec, NormAfter(spec, FRESH, frames), frame);
  }
}
