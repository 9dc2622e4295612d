/** What the terminal frame says about the turn, read off the frames before it and the message that ended it. */
module RunnerLaws {
  import opened Json
  import opened Text
  import opened CodexAppServer
  import opened RunnerSafety
  import Machine

  // ----- what a frame says -----

  /** A notification of this method. */
  predicate IsNotice(m: Record, name: string) {
    && At(Obj(m), ["method"]) == Some(Str(name))
    && !HasId(m) && !IsUnparsed(m)
  }

  predicate HasId(m: Record) { "id" in m && m["id"] != Null }

  /** The transport's mark on a line that is not JSON. */
  predicate IsUnparsed(m: Record) { PARSE_ERROR_KEY in m && m[PARSE_ERROR_KEY].Str? }

  /** An owned agent message that was completed with this text. */
  predicate SaysText(frame: Frame, text: string) {
    && frame.Native? && IsNotice(frame.record, "item/completed")
    && At(Obj(frame.record), ["params", "item", "type"]) == Some(Str("agentMessage"))
    && At(Obj(frame.record), ["params", "item", "text"]) == Some(Str(text))
  }

  /** How often something was counted; what is not a number counts nothing. */
  function Counted(breakdown: Json, key: string): int {
    match At(breakdown, [key]) case Some(Num(n)) => n case _ => 0
  }

  /** The usage a breakdown stands for: cached input is not counted twice, and the total adds up. */
  predicate IsUsageOf(u: Usage, breakdown: Json) {
    && u.Usage?
    && u.cacheRead == Counted(breakdown, "cachedInputTokens") && u.output == Counted(breakdown, "outputTokens")
    && u.reasoning == Counted(breakdown, "reasoningOutputTokens")
    && 0 <= u.input && u.input >= Counted(breakdown, "inputTokens") - u.cacheRead
    && (u.input > 0 ==> u.input + u.cacheRead == Counted(breakdown, "inputTokens"))
    && u.total == u.input + u.output + u.cacheRead
  }

  /** An owned usage update: the total if there is one, else the last turn's. */
  predicate SaysUsage(frame: Frame, u: Usage) {
    && frame.Native? && IsNotice(frame.record, "thread/tokenUsage/updated")
    && var total := At(Obj(frame.record), ["params", "tokenUsage", "total"]);
       var last := At(Obj(frame.record), ["params", "tokenUsage", "last"]);
       if IsObject(total) then IsUsageOf(u, total.value) else IsObject(last) && IsUsageOf(u, last.value)
  }

  predicate IsObject(value: Option<Json>) { value.Some? && value.value.Obj? }

  /** The last thing of its kind that is said, if one is. */
  ghost predicate IsLast<X(!new), T(!new)>(list: seq<X>, says: (X, T) -> bool, value: Option<T>) {
    match value
    case None => forall k, t :: 0 <= k < |list| ==> !says(list[k], t)
    case Some(t) =>
      exists k :: 0 <= k < |list| && says(list[k], t) && forall j, u :: k < j < |list| ==> !says(list[j], u)
  }

  lemma SaidAgain<X(!new), T(!new)>(list: seq<X>, x: X, says: (X, T) -> bool, value: T)
    requires says(x, value)
    ensures IsLast(list + [x], says, Some(value))
  {
    assert (list + [x])[|list|] == x;
  }

  lemma NothingSaid<X(!new), T(!new)>(list: seq<X>, x: X, says: (X, T) -> bool, value: Option<T>)
    requires IsLast(list, says, value) && forall t :: !says(x, t)
    ensures IsLast(list + [x], says, value)
  {
    if value.Some? {
      var k :| 0 <= k < |list| && says(list[k], value.value)
               && forall j, u :: k < j < |list| ==> !says(list[j], u);
      assert (list + [x])[k] == list[k];
    }
  }

  /** The text of the last item of a list that is an agent message with a text. */
  ghost predicate IsLastItemText(items: Option<Json>, text: Option<string>) {
    IsLast(if items.Some? && items.value.Arr? then items.value.items else [], IsAgentText, text)
  }

  predicate IsAgentText(item: Json, text: string) {
    At(item, ["type"]) == Some(Str("agentMessage")) && At(item, ["text"]) == Some(Str(text))
  }

  // ----- the runner reads what the frames say -----

  lemma AgentTextReads(raw: Option<Json>, text: string)
    ensures AgentText(raw) == Some(text) <==> raw.Some? && IsAgentText(raw.value, text)
  {
    if raw.Some? {
      AtOne(raw.value, "type");
      AtOne(raw.value, "text");
    }
  }

  lemma {:induction false} LastAgentTextReads(items: seq<Json>)
    ensures IsLast(items, IsAgentText, LastAgentText(items))
    decreases |items|
  {
    if items != [] {
      var front, last := items[..|items| - 1], items[|items| - 1];
      assert front + [last] == items;
      LastAgentTextReads(front);
      forall t ensures AgentText(Some(last)) == Some(t) <==> IsAgentText(last, t) { AgentTextReads(Some(last), t); }
      if AgentText(Some(last)).Some? {
        SaidAgain(front, last, IsAgentText, AgentText(Some(last)).value);
      } else {
        NothingSaid(front, last, IsAgentText, LastAgentText(front));
      }
    }
  }

  lemma CountsRead(breakdown: Record, key: string)
    ensures TokenCount(breakdown, key) == Counted(Obj(breakdown), key)
  {
    AtOne(Obj(breakdown), key);
  }

  lemma UsageReads(breakdown: Record)
    ensures IsUsageOf(MapTokenUsage(Some(breakdown)).value, Obj(breakdown))
  {
    CountsRead(breakdown, "inputTokens");
    CountsRead(breakdown, "cachedInputTokens");
    CountsRead(breakdown, "outputTokens");
    CountsRead(breakdown, "reasoningOutputTokens");
  }

  lemma NoticeReads(m: Record, name: string)
    ensures IsNotice(m, name) <==> IsNotification(m) && StringAt(Some(m), "method") == Some(name)
  {
    AtOne(Obj(m), "method");
  }

  /** What the runner has gathered is what its frames say. */
  ghost predicate Gathers(s: State) {
    IsLast(s.yielded, SaysText, s.finalMessage) && IsLast(s.yielded, SaysUsage, s.usage)
  }

  predicate IsOther(frame: Frame) {
    frame.Native? ==>
      !IsNotice(frame.record, "item/completed") && !IsNotice(frame.record, "thread/tokenUsage/updated")
  }

  /** A frame that is no owned notification of the two kinds says nothing. */
  lemma OtherFramesSayNothing(s: State, frame: Frame)
    requires Gathers(s) && IsOther(frame)
    ensures Gathers(Yield(s, frame))
  {
    NothingSaid(s.yielded, frame, SaysText, s.finalMessage);
    NothingSaid(s.yielded, frame, SaysUsage, s.usage);
  }

  lemma ItemIsGathered(s: State, m: Record)
    requires Gathers(s) && IsNotice(m, "item/completed")
    ensures Gathers(Yield(Absorb(s, "item/completed", AsRecord(Field(Some(m), "params"))), Native(m)))
  {
    var frame, p := Native(m), AsRecord(Field(Some(m), "params"));
    var raw := Field(p, "item");
    AtTwo(Obj(m), "params", "item");
    AtThree(Obj(m), "params", "item", "type");
    AtThree(Obj(m), "params", "item", "text");
    forall t ensures AgentText(raw) == Some(t) <==> SaysText(frame, t) {
      AgentTextReads(raw, t);
      if raw.Some? {
        AtOne(raw.value, "type");
        AtOne(raw.value, "text");
      }
    }
    NoticeReads(m, "item/completed");
    NoticeReads(m, "thread/tokenUsage/updated");
    NothingSaid(s.yielded, frame, SaysUsage, s.usage);
    if AgentText(raw).Some? {
      SaidAgain(s.yielded, frame, SaysText, AgentText(raw).value);
    } else {
      assert forall t :: AgentText(raw) != Some(t);
      NothingSaid(s.yielded, frame, SaysText, s.finalMessage);
    }
  }

  lemma UsageIsGathered(s: State, m: Record)
    requires Gathers(s) && IsNotice(m, "thread/tokenUsage/updated")
    ensures Gathers(Yield(Absorb(s, "thread/tokenUsage/updated", AsRecord(Field(Some(m), "params"))), Native(m)))
  {
    var frame, p := Native(m), AsRecord(Field(Some(m), "params"));
    var tu := AsRecord(Field(p, "tokenUsage"));
    var breakdown := Or(AsRecord(Field(tu, "total")), AsRecord(Field(tu, "last")));
    AtThree(Obj(m), "params", "tokenUsage", "total");
    AtThree(Obj(m), "params", "tokenUsage", "last");
    NoticeReads(m, "item/completed");
    NoticeReads(m, "thread/tokenUsage/updated");
    NothingSaid(s.yielded, frame, SaysText, s.finalMessage);
    if breakdown.Some? {
      UsageReads(breakdown.value);
      SaidAgain(s.yielded, frame, SaysUsage, MapTokenUsage(breakdown).value);
    } else {
      NothingSaid(s.yielded, frame, SaysUsage, s.usage);
    }
  }

  /** A step that gathers nothing, and adds at most one frame that says nothing. */
  ghost predicate IsSilent(s: State, t: State) {
    && t.finalMessage == s.finalMessage && t.usage == s.usage
    && (t.yielded == s.yielded || exists frame :: IsOther(frame) && t.yielded == s.yielded + [frame])
  }

  lemma SilentGathers(s: State, t: State)
    requires Gathers(s) && IsSilent(s, t)
    ensures Gathers(t)
  {
    if t.yielded != s.yielded {
      var frame :| IsOther(frame) && t.yielded == s.yielded + [frame];
      OtherFramesSayNothing(s, frame);
    }
  }

  lemma ErrorIsSilent(s: State, m: Record)
    requires IsResponse(m)
    ensures IsSilent(s, OnErrorResponse(s, m))
  {
    var t := OnErrorResponse(s, m);
    if t.yielded != s.yielded {
      var frame := t.yielded[|s.yielded|];
      assert IsOther(frame) && t.yielded == s.yielded + [frame];
    }
  }

  lemma ThreadStartedIsSilent(s: State, result: Option<Record>)
    ensures IsSilent(s, OnThreadStarted(s, result))
  {
    var t := OnThreadStarted(s, result);
    if t.yielded != s.yielded {
      var frame := t.yielded[|s.yielded|];
      assert IsOther(frame) && t.yielded == s.yielded + [frame];
    }
  }

  lemma SuccessIsSilent(s: State, m: Record)
    requires IsResponse(m)
    ensures IsSilent(s, OnSuccessResponse(s, m))
  {
    ThreadStartedIsSilent(s, AsRecord(Field(Some(m), "result")));
    var t := OnSuccessResponse(s, m);
    if t == Yield(s, Native(m)) { assert IsOther(Native(m)); }
  }

  lemma NoticeGathers(s: State, m: Record)
    requires Gathers(s) && IsNotification(m)
    ensures Gathers(OnNotification(s, m, StringAt(Some(m), "method").value))
  {
    var name, p := StringAt(Some(m), "method").value, AsRecord(Field(Some(m), "params"));
    NoticeReads(m, name);
    NoticeReads(m, "item/completed");
    NoticeReads(m, "thread/tokenUsage/updated");
    if !Belongs(s.ownThreadId, s.ownTurnId, p) {
      OtherFramesSayNothing(s, Foreign(m));
    } else if name == "item/completed" {
      ItemIsGathered(s, m);
    } else if name == "thread/tokenUsage/updated" {
      UsageIsGathered(s, m);
    } else {
      OtherFramesSayNothing(s, Native(m));
    }
  }

  lemma MessageGathers(s: State, m: Record)
    requires Gathers(s) && s.phase == Reading
    ensures Gathers(OnMessage(s, m))
  {
    if IsParseError(m) {
      OtherFramesSayNothing(s, OnMessage(s, m).yielded[|s.yielded|]);
    } else if IsResponse(m) {
      ErrorIsSilent(s, m);
      SuccessIsSilent(s, m);
      SilentGathers(s, OnMessage(s, m));
    } else if IsNotification(m) {
      NoticeGathers(s, m);
    } else {
      NoticeReads(m, "item/completed");
      NoticeReads(m, "thread/tokenUsage/updated");
      OtherFramesSayNothing(s, Native(m));
    }
  }

  lemma StepGathers(s: State, input: Input)
    requires Gathers(s)
    ensures Gathers(Step(s, input))
  {
    match input
    case Message(m) => if s.phase == Reading { MessageGathers(s, m); }
    case Resume => if s.phase.Completing? { OtherFramesSayNothing(s, Terminal(TerminalFromTurn(s, s.phase.turn))); }
    case ChildExit(exit) => if s.phase == AwaitingExit { OtherFramesSayNothing(s, Terminal(ExitResult(s, exit))); }
    case _ =>
  }

  /** Over every run, the runner's final message and usage are the last its frames say. */
  lemma RunGathers(preAborted: bool, inputs: seq<Input>)
    ensures Gathers(Run(Initial(preAborted), inputs))
  {
    forall t, e | Gathers(t) ensures Gathers(Step(t, e)) { StepGathers(t, e); }
    Machine.RunKeeps(Step, Gathers, Initial(preAborted), inputs);
  }

  // ----- how a turn says it ended -----

  predicate EndsTurn(frame: Frame) { frame.Native? && IsNotice(frame.record, "turn/completed") }

  /** A text at a path, or else a default. */
  function TextOr(m: Record, path: seq<string>, otherwise: string): string {
    match At(Obj(m), path) case Some(Str(text)) => text case _ => otherwise
  }

  /** The terminal frame, given the frames up to the notification that ended the turn. */
  ghost predicate TurnDictates(front: seq<Frame>, aborted: bool, model: Option<string>, r: TurnResult)
    requires front != [] && front[|front| - 1].Native?
  {
    var m := front[|front| - 1].record;
    var status := At(Obj(m), ["params", "turn", "status"]);
    && (r.status == Cancelled <==> aborted || status == Some(Str("interrupted")))
    && (r.status == Failed <==> !aborted && status == Some(Str("failed")))
    && (r.status == Failed ==>
          r.error == Some(TurnError(FromTurn, TextOr(m, ["params", "turn", "error", "message"], "codex turn failed"),
                                    ErrorInfo(m), None, None)))
    && (r.status != Failed ==> r.error.None?)
    && IsLast(front, SaysUsage, r.usage) && (r.model == if model == Some("") then None else model)
    && if r.status == Completed then CompletedText(front, m, r.finalMessage)
       else IsLast(front, SaysText, r.finalMessage)
  }

  /** Whatever stands beside the message of a turn's error. */
  function ErrorInfo(m: Record): Option<Json> { At(Obj(m), ["params", "turn", "error", "codexErrorInfo"]) }

  /** The last text that was streamed; without one, the last of the turn's own items. */
  ghost predicate CompletedText(front: seq<Frame>, m: Record, text: Option<string>) {
    || (text.Some? && IsLast(front, SaysText, text))
    || (IsLast(front, SaysText, None) && IsLastItemText(At(Obj(m), ["params", "turn", "items"]), text))
  }

  /** A turn that ended otherwise is never completed. */
  ghost predicate OtherwiseEnded(front: seq<Frame>, model: Option<string>, r: TurnResult) {
    && r.status != Completed && IsLast(front, SaysText, r.finalMessage)
    && (r.status == Cancelled ==>
          && r.error.None? && IsLast(front, SaysUsage, r.usage)
          && (r.model == if model == Some("") then None else model))
    && (r.status == Failed ==> r.error.Some? && r.error.value.source != FromTurn && r.usage.None? && r.model.None?)
  }

  ghost predicate Concludes(front: seq<Frame>, aborted: bool, model: Option<string>, r: TurnResult) {
    if front != [] && EndsTurn(front[|front| - 1]) then TurnDictates(front, aborted, model, r)
    else OtherwiseEnded(front, model, r)
  }

  /** A turn notification is followed by nothing but the terminal frame it dictates. */
  ghost predicate Follows(s: State) {
    match s.phase
    case Completing(turn) =>
      && s.yielded != [] && EndsTurn(s.yielded[|s.yielded| - 1])
      && turn == AsRecord(At(Obj(s.yielded[|s.yielded| - 1].record), ["params", "turn"]))
    case Finished =>
      && s.yielded != [] && s.yielded[|s.yielded| - 1].Terminal?
      && Concludes(s.yielded[..|s.yielded| - 1], s.interruptSent, s.observedModel, s.yielded[|s.yielded| - 1].result)
    case _ => s.yielded == [] || !EndsTurn(s.yielded[|s.yielded| - 1])
  }

  ghost predicate Accounts(s: State) { Gathers(s) && Follows(s) }

  lemma TurnReads(m: Record, turn: Option<Record>)
    requires turn == AsRecord(At(Obj(m), ["params", "turn"]))
    ensures forall x: string :: StringAt(turn, "status") == Some(x) <==>
              At(Obj(m), ["params", "turn", "status"]) == Some(Str(x))
    ensures var te := AsRecord(Field(turn, "error"));
            && Or(StringAt(te, "message"), Some("codex turn failed")).value ==
               TextOr(m, ["params", "turn", "error", "message"], "codex turn failed")
            && Field(te, "codexErrorInfo") == ErrorInfo(m)
    ensures Field(turn, "items") == At(Obj(m), ["params", "turn", "items"])
  {
    AtTwo(Obj(m), "params", "turn");
    AtThree(Obj(m), "params", "turn", "status");
    AtThree(Obj(m), "params", "turn", "items");
    AtFour(Obj(m), "params", "turn", "error", "message");
    AtFour(Obj(m), "params", "turn", "error", "codexErrorInfo");
  }

  lemma ItemsRead(items: Option<Json>)
    ensures IsLastItemText(items, FinalMessageFromItems(items))
  {
    if items.Some? && items.value.Arr? { LastAgentTextReads(items.value.items); }
  }

  lemma TurnIsDictated(s: State)
    requires Accounts(s) && s.phase.Completing?
    ensures TurnDictates(s.yielded, s.interruptSent, s.observedModel, TerminalFromTurn(s, s.phase.turn))
  {
    TurnReads(s.yielded[|s.yielded| - 1].record, s.phase.turn);
    ItemsRead(Field(s.phase.turn, "items"));
  }

  lemma FinishConcludes(s: State, r: TurnResult)
    requires Concludes(s.yielded, s.interruptSent, s.observedModel, r)
    ensures Follows(Finish(s, r))
  {
    var t := Finish(s, r);
    assert t.yielded[..|t.yielded| - 1] == s.yielded;
  }

  /** The runner goes on reading, with at most one more frame that ends no turn, or gives up with a failure of its
      own. */
  ghost predicate GoesOn(s: State, t: State) {
    || (t.phase == Reading && t.yielded == s.yielded)
    || (t.phase == Reading && exists frame :: !EndsTurn(frame) && t.yielded == s.yielded + [frame])
    || exists e: TurnError ::
         e.source != FromTurn && t.phase == Finished && t.yielded == s.yielded + [Terminal(Failure(s, e))]
  }

  lemma GoingOnFollows(s: State, t: State)
    requires Accounts(s) && s.phase == Reading && GoesOn(s, t)
    ensures Follows(t)
  {
    if t.phase == Finished { assert t.yielded[..|t.yielded| - 1] == s.yielded; }
  }

  lemma ErrorGoesOn(s: State, m: Record)
    requires s.phase == Reading && IsResponse(m)
    ensures GoesOn(s, OnErrorResponse(s, m))
  {
    var t := OnErrorResponse(s, m);
    NoticeReads(m, "turn/completed");
    if t.phase == Finished {
      var e := t.yielded[|s.yielded|].result.error.value;
      assert t.yielded == s.yielded + [Terminal(Failure(s, e))];
    } else if t != s {
      assert !EndsTurn(Native(m)) && t.yielded == s.yielded + [Native(m)];
    }
  }

  lemma ThreadStartedGoesOn(s: State, result: Option<Record>)
    requires s.phase == Reading
    ensures GoesOn(s, OnThreadStarted(s, result))
  {
    var t := OnThreadStarted(s, result);
    if t.phase == Finished {
      var e := t.yielded[|s.yielded|].result.error.value;
      assert t.yielded == s.yielded + [Terminal(Failure(s, e))];
    }
  }

  lemma SuccessGoesOn(s: State, m: Record)
    requires s.phase == Reading && IsResponse(m)
    ensures GoesOn(s, OnSuccessResponse(s, m))
  {
    ThreadStartedGoesOn(s, AsRecord(Field(Some(m), "result")));
    NoticeReads(m, "turn/completed");
    assert !EndsTurn(Native(m));
  }

  lemma NoticeGoesOn(s: State, m: Record, name: string)
    requires s.phase == Reading && IsNotification(m) && StringAt(Some(m), "method") == Some(name)
    requires name == "turn/completed" ==> !Belongs(s.ownThreadId, s.ownTurnId, AsRecord(Field(Some(m), "params")))
    ensures GoesOn(s, OnNotification(s, m, name))
  {
    NoticeReads(m, "turn/completed");
    assert !EndsTurn(Foreign(m));
    assert name != "turn/completed" ==> !EndsTurn(Native(m));
  }

  lemma TurnNoticeFollows(s: State, m: Record)
    requires s.phase == Reading && IsNotification(m) && StringAt(Some(m), "method") == Some("turn/completed")
    requires Belongs(s.ownThreadId, s.ownTurnId, AsRecord(Field(Some(m), "params")))
    ensures Follows(OnNotification(s, m, "turn/completed"))
  {
    NoticeReads(m, "turn/completed");
    AtTwo(Obj(m), "params", "turn");
  }

  lemma OtherMessageGoesOn(s: State, m: Record)
    requires s.phase == Reading && !IsResponse(m) && !IsNotification(m)
    ensures GoesOn(s, OnMessage(s, m))
  {
    NoticeReads(m, "turn/completed");
    var t := OnMessage(s, m);
    if IsParseError(m) {
      var e := t.yielded[|s.yielded|].result.error.value;
      assert t.yielded == s.yielded + [Terminal(Failure(s, e))];
    } else {
      assert !EndsTurn(Native(m)) && t.yielded == s.yielded + [Native(m)];
    }
  }

  lemma MessageFollows(s: State, m: Record)
    requires Accounts(s) && s.phase == Reading
    ensures Follows(OnMessage(s, m))
  {
    if IsResponse(m) {
      if Present(m, "error") { ErrorGoesOn(s, m); } else { SuccessGoesOn(s, m); }
      GoingOnFollows(s, OnMessage(s, m));
    } else if IsNotification(m) {
      NoticeFollows(s, m);
    } else {
      OtherMessageGoesOn(s, m);
      GoingOnFollows(s, OnMessage(s, m));
    }
  }

  lemma NoticeFollows(s: State, m: Record)
    requires Accounts(s) && s.phase == Reading && IsNotification(m)
    ensures Follows(OnMessage(s, m))
  {
    var name := StringAt(Some(m), "method").value;
    if name == "turn/completed" && Belongs(s.ownThreadId, s.ownTurnId, AsRecord(Field(Some(m), "params"))) {
      TurnNoticeFollows(s, m);
    } else {
      NoticeGoesOn(s, m, name);
      GoingOnFollows(s, OnNotification(s, m, name));
    }
  }

  lemma ResumeFollows(s: State)
    requires Accounts(s)
    ensures Follows(Step(s, Resume))
  {
    if s.phase.Completing? {
      TurnIsDictated(s);
      FinishConcludes(s, TerminalFromTurn(s, s.phase.turn));
    }
  }

  lemma ExitIsOtherwise(s: State, exit: AppServerExit)
    requires Accounts(s)
    ensures OtherwiseEnded(s.yielded, s.observedModel, ExitResult(s, exit))
  {
  }

  lemma ExitFollows(s: State, exit: AppServerExit)
    requires Accounts(s)
    ensures Follows(Step(s, ChildExit(exit)))
  {
    if s.phase == AwaitingExit {
      ExitIsOtherwise(s, exit);
      assert !(s.yielded != [] && EndsTurn(s.yielded[|s.yielded| - 1]));
      FinishConcludes(s, ExitResult(s, exit));
    }
  }

  /** What sends and kills but neither yields nor changes the phase. */
  lemma QuietFollows(s: State, t: State)
    requires Follows(s) && s.phase != Finished && t.phase == s.phase && t.yielded == s.yielded
    ensures Follows(t)
  {
  }

  lemma AbortFollows(s: State)
    requires Accounts(s)
    ensures Follows(Step(s, Abort))
  {
    if s.phase != Finished { QuietFollows(s, Step(s, Abort)); }
  }

  lemma StepAccounts(s: State, input: Input)
    requires Accounts(s)
    ensures Accounts(Step(s, input))
  {
    StepGathers(s, input);
    match input
    case Message(m) => if s.phase == Reading { MessageFollows(s, m); }
    case Resume => ResumeFollows(s);
    case ChildExit(exit) => ExitFollows(s, exit);
    case Abort => AbortFollows(s);
    case StreamEnd =>
  }

  /** Over every run: the terminal frame says of the turn what the notification that ended it and the frames before
      it say, and an abort cancels whatever else. A turn that no such notification ended is not completed. */
  lemma TurnEndsAsItSays(preAborted: bool, inputs: seq<Input>)
    requires Run(Initial(preAborted), inputs).phase == Finished
    ensures var s := Run(Initial(preAborted), inputs);
            && EndsInItsOnlyTerminal(s.yielded)
            && Concludes(s.yielded[..|s.yielded| - 1], s.interruptSent, s.observedModel, Outcome(s.yielded))
  {
    forall t, e | Accounts(t) ensures Accounts(Step(t, e)) { StepAccounts(t, e); }
    Machine.RunKeeps(Step, Accounts, Initial(preAborted), inputs);
    ExactlyOneTerminal(preAborted, inputs);
  }
}
