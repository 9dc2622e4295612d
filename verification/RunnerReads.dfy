/** What each message means to the runner: what it learns from it, whether it is its own, when it ends the turn. */
module RunnerReads {
  import opened Json
  import opened Text
  import opened CodexAppServer
  import opened RunnerSafety
  import opened RunnerLaws
  import opened NonInterference
  import Machine

  function TextAt(m: Record, path: seq<string>): Option<string> {
    match At(Obj(m), path) case Some(Str(text)) => Some(text) case _ => None
  }

  /** An answer to request `id`: no method, no error. */
  predicate IsAnswer(m: Record, id: int) {
    IsReply(m, id) && !("error" in m && m["error"] != Null)
  }

  predicate IsErrorAnswer(m: Record, id: int) {
    IsReply(m, id) && "error" in m && m["error"] != Null
  }

  predicate IsReply(m: Record, id: int) {
    At(Obj(m), ["id"]) == Some(Num(id)) && TextAt(m, ["method"]).None? && !IsUnparsed(m)
  }

  lemma ReplyReads(m: Record, id: int)
    ensures IsReply(m, id) <==> IsResponse(m) && NumberAt(Some(m), "id") == Some(id)
  {
    AtOne(Obj(m), "id");
    AtOne(Obj(m), "method");
  }

  // ----- what is learned -----

  /** The answer to `thread/start` names the thread, and the model if it likes. */
  lemma ThreadIsLearned(s: State, m: Record)
    requires s.phase == Reading && IsAnswer(m, s.threadStartId) && s.threadStartId != s.initId
    ensures var t := Step(s, Message(m));
            && t.ownThreadId == TextAt(m, ["result", "thread", "id"])
            && (t.observedModel == if TextAt(m, ["result", "model"]).Some? then TextAt(m, ["result", "model"])
                                   else s.observedModel)
            && (t.phase == Finished <==> TextAt(m, ["result", "thread", "id"]).None?)
  {
    ReplyReads(m, s.threadStartId);
    AtThree(Obj(m), "result", "thread", "id");
    AtTwo(Obj(m), "result", "model");
  }

  /** The turn's id is what the answer to `turn/start` or an owned `turn/started` names first. */
  predicate NamesTurn(s: State, m: Record, turn: string) { AnswerNames(s, m, turn) || NoticeNames(s, m, turn) }

  predicate AnswerNames(s: State, m: Record, turn: string) {
    && IsAnswer(m, s.turnStartId) && s.turnStartId !in {s.initId, s.threadStartId}
    && TextAt(m, ["result", "turn", "id"]) == Some(turn)
  }

  predicate NoticeNames(s: State, m: Record, turn: string) {
    IsNotice(m, "turn/started") && !NamesOther(s, m) && TextAt(m, ["params", "turn", "id"]) == Some(turn)
  }

  lemma AnswerTellsTurn(s: State, m: Record)
    requires s.phase == Reading && s.ownTurnId.None? && IsResponse(m)
    ensures forall turn :: Step(s, Message(m)).ownTurnId == Some(turn) <==> AnswerNames(s, m, turn)
  {
    AtThree(Obj(m), "result", "turn", "id");
    ReplyReads(m, s.turnStartId);
  }

  lemma NoticeTellsTurn(s: State, m: Record)
    requires s.phase == Reading && s.ownTurnId.None? && !IsResponse(m)
    ensures forall turn :: Step(s, Message(m)).ownTurnId == Some(turn) <==> NoticeNames(s, m, turn)
  {
    AtThree(Obj(m), "params", "turn", "id");
    NoticeReads(m, "turn/started");
    NamesOtherReads(s, m);
  }

  lemma TurnIsLearned(s: State, m: Record)
    requires s.phase == Reading && s.ownTurnId.None?
    ensures forall turn :: Step(s, Message(m)).ownTurnId == Some(turn) <==> NamesTurn(s, m, turn)
  {
    NoticeReads(m, "turn/started");
    ReplyReads(m, s.turnStartId);
    if IsResponse(m) { AnswerTellsTurn(s, m); } else { NoticeTellsTurn(s, m); }
  }

  // ----- what is its own -----

  /** The turn a notification names: its `turnId`, or else the id of its `turn`. */
  function NamedTurn(m: Record): Option<string> {
    var direct := TextAt(m, ["params", "turnId"]);
    if direct.Some? then direct else TextAt(m, ["params", "turn", "id"])
  }

  /** The notification names another thread than the runner's, or another turn. What is not known yet, or not
      named, is no other. */
  predicate NamesOther(s: State, m: Record) {
    var thread, turn := TextAt(m, ["params", "threadId"]), NamedTurn(m);
    || (s.ownThreadId.Some? && thread.Some? && thread.value != s.ownThreadId.value)
    || (s.ownTurnId.Some? && turn.Some? && turn.value != s.ownTurnId.value)
  }

  lemma NamesOtherReads(s: State, m: Record)
    ensures Belongs(s.ownThreadId, s.ownTurnId, AsRecord(Field(Some(m), "params"))) <==> !NamesOther(s, m)
  {
    AtTwo(Obj(m), "params", "threadId");
    AtTwo(Obj(m), "params", "turnId");
    AtThree(Obj(m), "params", "turn", "id");
  }

  /** A notification is surfaced as foreign exactly if it names another thread or turn. */
  lemma ForeignIffOther(s: State, m: Record, name: string)
    requires s.phase == Reading && IsNotice(m, name)
    ensures ForeignNotification(s, m) <==> NamesOther(s, m)
    ensures var t := Step(s, Message(m));
            t.yielded == s.yielded + [if NamesOther(s, m) then Foreign(m) else Native(m)]
  {
    NoticeReads(m, name);
    NamesOtherReads(s, m);
  }

  // ----- what ends the turn -----

  /** The failure a message ends the turn with: an unparsed line, an error answer to a pending request that is not
      the interrupt, or a `thread/start` answer that names no thread. */
  ghost predicate EndsWith(s: State, m: Record, e: TurnError) {
    || (IsUnparsed(m) && e == TurnError(FromParse, "unparseable codex app-server line: " + m[PARSE_ERROR_KEY].s,
                                        None, None, None))
    || (exists id: int :: && IsErrorAnswer(m, id) && id in s.pending && id != s.interruptId
                          && e == TurnError(FromJsonRpc, TextOr(m, ["error", "message"], "codex app-server error"),
                                            None, NumberIn(m, ["error", "code"]), None))
    || (IsAnswer(m, s.threadStartId) && s.threadStartId != s.initId && TextAt(m, ["result", "thread", "id"]).None?
        && e == TurnError(FromJsonRpc, "thread/start returned no thread id", None, None, None))
  }

  function NumberIn(m: Record, path: seq<string>): Option<int> {
    match At(Obj(m), path) case Some(Num(n)) => Some(n) case _ => None
  }

  lemma ErrorAnswerEnds(s: State, m: Record)
    requires s.phase == Reading && IsResponse(m) && Present(m, "error")
    ensures var t := Step(s, Message(m));
            if t.phase == Finished then
              exists e :: EndsWith(s, m, e) && t.yielded == s.yielded + [Terminal(Failure(s, e))]
            else forall e :: !EndsWith(s, m, e)
  {
    AtTwo(Obj(m), "error", "message");
    AtTwo(Obj(m), "error", "code");
    ReplyReads(m, s.threadStartId);
    forall id: int ensures IsErrorAnswer(m, id) <==> NumberAt(Some(m), "id") == Some(id) { ReplyReads(m, id); }
    var t := Step(s, Message(m));
    if t.phase == Finished {
      var id := NumberAt(Some(m), "id").value;
      assert IsErrorAnswer(m, id);
      var e := t.yielded[|s.yielded|].result.error.value;
      assert EndsWith(s, m, e);
    }
  }

  lemma AnswerEnds(s: State, m: Record)
    requires s.phase == Reading && IsResponse(m) && !Present(m, "error")
    ensures var t := Step(s, Message(m));
            if t.phase == Finished then
              exists e :: EndsWith(s, m, e) && t.yielded == s.yielded + [Terminal(Failure(s, e))]
            else forall e :: !EndsWith(s, m, e)
  {
    AtThree(Obj(m), "result", "thread", "id");
    ReplyReads(m, s.threadStartId);
    assert forall id: int :: !IsErrorAnswer(m, id);
    var t := Step(s, Message(m));
    if t.phase == Finished {
      var e := t.yielded[|s.yielded|].result.error.value;
      assert EndsWith(s, m, e) && t.yielded == s.yielded + [Terminal(Failure(s, e))];
    }
  }

  /** A message ends the turn exactly if it is one of the three, and the terminal frame says which. */
  lemma MessageEndsIff(s: State, m: Record)
    requires s.phase == Reading
    ensures var t := Step(s, Message(m));
            if t.phase == Finished then
              exists e :: EndsWith(s, m, e) && t.yielded == s.yielded + [Terminal(Failure(s, e))]
            else forall e :: !EndsWith(s, m, e)
  {
    if IsResponse(m) {
      if Present(m, "error") { ErrorAnswerEnds(s, m); } else { AnswerEnds(s, m); }
    } else {
      OtherMessageEnds(s, m);
    }
  }

  lemma OtherMessageEnds(s: State, m: Record)
    requires s.phase == Reading && !IsResponse(m)
    ensures var t := Step(s, Message(m));
            if t.phase == Finished then
              exists e :: EndsWith(s, m, e) && t.yielded == s.yielded + [Terminal(Failure(s, e))]
            else forall e :: !EndsWith(s, m, e)
  {
    forall id: int ensures !IsReply(m, id) { ReplyReads(m, id); }
    var t := Step(s, Message(m));
    if IsParseError(m) {
      var e := t.yielded[|s.yielded|].result.error.value;
      assert EndsWith(s, m, e) && t.yielded == s.yielded + [Terminal(Failure(s, e))];
    } else if IsNotification(m) {
      NotificationShape(s, m);
    }
  }

  /** A number as it is written: a minus sign if it is negative, then its decimal digits. */
  ghost predicate Writes(text: string, n: int) {
    exists digits: string :: AllDigits(digits) && digits != "" && DecimalValue(digits) == (if n < 0 then -n else n)
                             && text == if n < 0 then "-" + digits else digits
  }

  /** The message of an exit says its code, and what the child wrote if it wrote something. */
  ghost predicate Reports(exit: AppServerExit, message: string) {
    exists code: string ::
      && (if exit.exitCode.Some? then Writes(code, exit.exitCode.value) else code == "unknown")
      && message == SaysExit(code, Trim(exit.stderr))
  }

  function SaysExit(code: string, said: string): string {
    if said == "" then "codex app-server exited before completing the turn (code " + code + ")"
    else "codex app-server exited before completing the turn (code " + code + "): " + said
  }

  lemma NumberIsWritten(n: int)
    ensures Writes(Number(n), n)
  {
    var m: nat := if n < 0 then -n else n;
    DecimalRoundTrip(m);
    var digits := Decimal(m);
    assert AllDigits(digits) && Number(n) == if n < 0 then "-" + digits else digits;
  }

  /** Where the closing bracket is put makes no difference. */
  lemma BracketIsClosed(head: string, code: string, said: string)
    ensures head + code + ")" + ": " + said == head + code + "): " + said
  {
  }

  lemma ExitIsReported(exit: AppServerExit, message: string)
    requires message == ExitMessage(exit)
    ensures Reports(exit, message)
  {
    var code := if exit.exitCode.Some? then Number(exit.exitCode.value) else "unknown";
    if exit.exitCode.Some? { NumberIsWritten(exit.exitCode.value); }
    var head, said := "codex app-server exited before completing the turn (code ", Trim(exit.stderr);
    BracketIsClosed(head, code, said);
    assert message == SaysExit(code, said) by {
      if said != "" { assert head + code + ")" + (": " + said) == head + code + ")" + ": " + said; }
    }
  }

  /** The terminal frame after the child's exit: what could not be spawned failed, what was aborted is cancelled, and
      any other exit failed with its code and what the child wrote last. */
  ghost predicate ExitDictates(exit: AppServerExit, aborted: bool, r: TurnResult) {
    && (r.status == Cancelled <==> exit.spawnError.None? && (exit.aborted || aborted))
    && (r.status == Failed <==> r.status != Cancelled)
    && (exit.spawnError.Some? ==> r.error == Some(TurnError(FromSpawn, exit.spawnError.value, None, None, None)))
    && (exit.spawnError.None? && r.status == Failed ==>
          && r.error.Some? && r.error.value.source == FromExit && r.error.value.exitCode == exit.exitCode
          && Reports(exit, r.error.value.message))
  }

  lemma ExitSaysWhy(s: State, exit: AppServerExit)
    requires s.phase == AwaitingExit
    ensures var t := Step(s, ChildExit(exit));
            && t.phase == Finished && |t.yielded| == |s.yielded| + 1 && t.yielded[|s.yielded|].Terminal?
            && ExitDictates(exit, s.interruptSent, t.yielded[|s.yielded|].result)
  {
    ExitIsDictated(s, exit, ExitResult(s, exit));
  }

  lemma ExitIsDictated(s: State, exit: AppServerExit, r: TurnResult)
    requires r == ExitResult(s, exit)
    ensures ExitDictates(exit, s.interruptSent, r)
  {
    if r.error.Some? && exit.spawnError.None? { ExitIsReported(exit, r.error.value.message); }
  }

  // ----- aborts are observed -----

  lemma {:induction false} AbortIsObserved(s: State, inputs: seq<Input>)
    requires Run(s, inputs).phase != Finished
    ensures Run(s, inputs).interruptSent <==> s.interruptSent || Abort in inputs
    decreases inputs
  {
    if inputs != [] {
      var t := Step(s, inputs[0]);
      RunKeeps(t, inputs[1..]);
      AbortMatters(s, inputs[0]);
      AbortIsObserved(t, inputs[1..]);
      assert inputs == [inputs[0]] + inputs[1..];
    }
  }

  lemma AbortMatters(s: State, input: Input)
    ensures Step(s, input).interruptSent <==> s.interruptSent || (input.Abort? && s.phase != Finished)
  {
    if input.Message? && s.phase == Reading && IsNotification(input.record) { NotificationShape(s, input.record); }
  }

  /** The first abort interrupts the turn if both ids are known, under a fresh id, and otherwise kills the child; a
      later one does nothing. */
  lemma AbortActs(s: State)
    requires s.phase != Finished
    ensures var t := Step(s, Abort);
            && t.phase == s.phase && t.yielded == s.yielded
            && (s.interruptSent ==> t == s)
            && (!s.interruptSent && s.ownThreadId.Some? && s.ownTurnId.Some? ==>
                  && t.sent == s.sent + [Interrupt(t.nextId, s.ownThreadId.value, s.ownTurnId.value)]
                  && t.nextId == s.nextId + 1 && t.killed == s.killed)
            && (!s.interruptSent && (s.ownThreadId.None? || s.ownTurnId.None?) ==> t.killed && t.sent == s.sent)
  {
  }

  // ----- every way out leads out -----

  /** Where the runner reads, the end of the stream and the child's exit finish it; where it has yielded the turn's
      end, being resumed does. Until then it waits. */
  lemma TheTurnCanEnd(s: State, exit: AppServerExit)
    requires s.phase != Finished
    ensures s.phase == Reading ==>
              && Step(s, StreamEnd) == s.(phase := AwaitingExit)
              && Step(Step(s, StreamEnd), ChildExit(exit)).phase == Finished
    ensures s.phase == AwaitingExit ==> Step(s, ChildExit(exit)).phase == Finished
    ensures s.phase.Completing? <==> Step(s, Resume).phase == Finished
    ensures s.phase != Reading ==> forall m :: Step(s, Message(m)) == s
  {
  }

  // ----- the server's requests are answered -----

  predicate IsRequest(m: Record) { TextAt(m, ["method"]).Some? && HasId(m) && !IsUnparsed(m) }

  /** The requests among the frames, each as its answer. */
  function Asked(frames: seq<Frame>): seq<Outgoing> {
    if frames == [] then []
    else
      var last := frames[|frames| - 1];
      Asked(frames[..|frames| - 1]) +
      if last.Native? && IsRequest(last.record) then [Reply(last.record["id"], TextAt(last.record, ["method"]).value)]
      else []
  }

  function Answered(sent: seq<Outgoing>): seq<Outgoing> {
    if sent == [] then []
    else Answered(sent[..|sent| - 1]) + if sent[|sent| - 1].Reply? then [sent[|sent| - 1]] else []
  }

  ghost predicate Answers(s: State) { Answered(s.sent) == Asked(s.yielded) }

  lemma AskedGrows(frames: seq<Frame>, frame: Frame)
    ensures frame.Native? && IsRequest(frame.record) ==>
              Asked(frames + [frame]) ==
              Asked(frames) + [Reply(frame.record["id"], TextAt(frame.record, ["method"]).value)]
    ensures !(frame.Native? && IsRequest(frame.record)) ==> Asked(frames + [frame]) == Asked(frames)
  {
    assert (frames + [frame])[..|frames|] == frames;
  }

  lemma AnsweredGrows(sent: seq<Outgoing>, message: Outgoing)
    ensures Answered(sent + [message]) == Answered(sent) + if message.Reply? then [message] else []
  {
    assert (sent + [message])[..|sent|] == sent;
  }

  /** A step that neither reads a request nor answers one. */
  ghost predicate AsksNothing(s: State, t: State) {
    && (t.yielded == s.yielded ||
        exists frame: Frame :: !(frame.Native? && IsRequest(frame.record)) && t.yielded == s.yielded + [frame])
    && Answered(t.sent) == Answered(s.sent)
  }

  lemma AskingNothingKeeps(s: State, t: State)
    requires Answers(s) && AsksNothing(s, t)
    ensures Answers(t)
  {
    if t.yielded != s.yielded {
      var frame: Frame :| !(frame.Native? && IsRequest(frame.record)) && t.yielded == s.yielded + [frame];
      AskedGrows(s.yielded, frame);
    }
  }

  lemma RequestReads(m: Record)
    ensures IsRequest(m) <==> !IsParseError(m) && StringAt(Some(m), "method").Some? && Present(m, "id")
    ensures TextAt(m, ["method"]) == StringAt(Some(m), "method")
  {
    AtOne(Obj(m), "method");
  }

  lemma ErrorAsksNothing(s: State, m: Record)
    requires s.phase == Reading && IsResponse(m)
    ensures AsksNothing(s, OnErrorResponse(s, m))
  {
    RequestReads(m);
    var t := OnErrorResponse(s, m);
    if t.yielded != s.yielded {
      var frame := t.yielded[|s.yielded|];
      assert t.yielded == s.yielded + [frame] && !(frame.Native? && IsRequest(frame.record));
    }
  }

  lemma InitializedAsksNothing(s: State)
    ensures AsksNothing(s, OnInitialized(s))
  {
    AnsweredGrows(s.sent, Initialized);
    AnsweredGrows(s.sent + [Initialized], ThreadStart(s.nextId + 1));
  }

  lemma ThreadStartedAsksNothing(s: State, result: Option<Record>)
    ensures AsksNothing(s, OnThreadStarted(s, result))
  {
    var t := OnThreadStarted(s, result);
    if t.yielded != s.yielded {
      var frame := t.yielded[|s.yielded|];
      assert t.yielded == s.yielded + [frame] && !frame.Native?;
    } else {
      AnsweredGrows(s.sent, t.sent[|s.sent|]);
    }
  }

  lemma SuccessAsksNothing(s: State, m: Record)
    requires s.phase == Reading && IsResponse(m)
    ensures AsksNothing(s, OnSuccessResponse(s, m))
  {
    RequestReads(m);
    InitializedAsksNothing(s);
    ThreadStartedAsksNothing(s, AsRecord(Field(Some(m), "result")));
    assert !(Native(m).Native? && IsRequest(Native(m).record));
  }

  lemma NoticeAsksNothing(s: State, m: Record)
    requires s.phase == Reading && IsNotification(m)
    ensures AsksNothing(s, OnMessage(s, m))
  {
    RequestReads(m);
    NotificationShape(s, m);
    var t := OnMessage(s, m);
    var frame := t.yielded[|s.yielded|];
    assert t.yielded == s.yielded + [frame] && frame in {Native(m), Foreign(m)};
    assert !(frame.Native? && IsRequest(frame.record));
  }

  lemma RequestIsAnswered(s: State, m: Record)
    requires Answers(s) && s.phase == Reading && IsRequest(m)
    ensures Answers(OnMessage(s, m))
  {
    RequestReads(m);
    AskedGrows(s.yielded, Native(m));
    AnsweredGrows(s.sent, Reply(m["id"], StringAt(Some(m), "method").value));
  }

  lemma MessageKeepsAnswers(s: State, m: Record)
    requires Answers(s) && s.phase == Reading
    ensures Answers(OnMessage(s, m))
  {
    RequestReads(m);
    if IsRequest(m) {
      RequestIsAnswered(s, m);
    } else {
      if IsResponse(m) {
        if Present(m, "error") { ErrorAsksNothing(s, m); } else { SuccessAsksNothing(s, m); }
      } else if IsNotification(m) {
        NoticeAsksNothing(s, m);
      } else {
        var t := OnMessage(s, m);
        var frame := t.yielded[|s.yielded|];
        assert t.yielded == s.yielded + [frame] && !(frame.Native? && IsRequest(frame.record));
      }
      AskingNothingKeeps(s, OnMessage(s, m));
    }
  }

  lemma StepKeepsAnswers(s: State, input: Input)
    requires Answers(s)
    ensures Answers(Step(s, input))
  {
    match input
    case Message(m) => if s.phase == Reading { MessageKeepsAnswers(s, m); }
    case Abort =>
      var t := Step(s, Abort);
      if t.sent != s.sent { AnsweredGrows(s.sent, t.sent[|s.sent|]); }
    case Resume => if s.phase.Completing? { AskedGrows(s.yielded, Terminal(TerminalFromTurn(s, s.phase.turn))); }
    case ChildExit(exit) => if s.phase == AwaitingExit { AskedGrows(s.yielded, Terminal(ExitResult(s, exit))); }
    case StreamEnd =>
  }

  /** Over every run each request of the server is surfaced once and answered once, under its own id and in order. */
  lemma RequestsAreAnswered(preAborted: bool, inputs: seq<Input>)
    ensures Answers(Run(Initial(preAborted), inputs))
  {
    forall t, e | Answers(t) ensures Answers(Step(t, e)) { StepKeepsAnswers(t, e); }
    var s := Initial(preAborted);
    assert s.sent == [] + [Initialize(1)];
    AnsweredGrows([], Initialize(1));
    Machine.RunKeeps(Step, Answers, s, inputs);
  }
}
