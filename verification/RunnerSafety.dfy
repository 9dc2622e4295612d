/** What every run of the turn runner keeps, whatever the server writes and whenever the caller aborts. */
module RunnerSafety {
  import opened Json
  import opened CodexAppServer
  import Machine

  // ----- one terminal frame, and it is last -----

  ghost predicate NoTerminal(frames: seq<Frame>) {
    forall i :: 0 <= i < |frames| ==> !frames[i].Terminal?
  }

  /** Exactly one terminal frame, in last position. */
  ghost predicate EndsInItsOnlyTerminal(frames: seq<Frame>) {
    frames != [] && frames[|frames| - 1].Terminal? && NoTerminal(frames[..|frames| - 1])
  }

  ghost function Outcome(frames: seq<Frame>): TurnResult
    requires EndsInItsOnlyTerminal(frames)
  {
    frames[|frames| - 1].result
  }

  /** The last frame is the `turn/completed` notification. */
  ghost predicate EndsInTurnCompleted(frames: seq<Frame>) {
    && frames != [] && frames[|frames| - 1].Native?
    && StringAt(Some(frames[|frames| - 1].record), "method") == Some("turn/completed")
  }

  /** `error` is carried exactly by a failed outcome; an aborted run is never reported completed; and a
      completed outcome directly follows the `turn/completed` notification that ended the turn. */
  ghost predicate OutcomeIsHonest(s: State)
    requires EndsInItsOnlyTerminal(s.yielded)
  {
    var result := Outcome(s.yielded);
    && (result.error.Some? <==> result.status == Failed)
    && (s.interruptSent ==> result.status != Completed)
    && (result.status == Completed ==>
          EndsInTurnCompleted(s.yielded[..|s.yielded| - 1]))
  }

  /** An observed abort has either interrupted the turn or killed the child. */
  ghost predicate AbortReachedChild(s: State) {
    s.interruptSent ==> s.killed || exists i :: 0 <= i < |s.sent| && s.sent[i].Interrupt?
  }

  ghost predicate Disciplined(s: State) {
    && (if s.phase == Finished then s.killed && EndsInItsOnlyTerminal(s.yielded) && OutcomeIsHonest(s)
        else NoTerminal(s.yielded))
    && (s.phase.Completing? ==> EndsInTurnCompleted(s.yielded))
    && AbortReachedChild(s)
  }

  /** What any step may do to the state, without saying which step it was. */
  ghost predicate Moves(s: State, t: State) {
    && (s.phase == Finished ==> t == s)
    && s.sent <= t.sent
    && (s.ownTurnId.Some? ==> t.ownTurnId == s.ownTurnId)
    && (s.interruptSent ==> t.interruptSent)
    && (s.killed ==> t.killed)
    && (t.interruptSent && !s.interruptSent ==> t.killed || (t.sent != s.sent && t.sent[|t.sent| - 1].Interrupt?))
    && if t.yielded == s.yielded then
         (t.phase == Finished <==> s.phase == Finished) && (t.phase.Completing? ==> t.phase == s.phase)
       else
         && s.phase != Finished && |t.yielded| == |s.yielded| + 1 && s.yielded <= t.yielded
         && var frame := t.yielded[|s.yielded|];
            if frame.Terminal? then
              && t.phase == Finished && t.killed
              && (frame.result.error.Some? <==> frame.result.status == Failed)
              && (t.interruptSent ==> frame.result.status != Completed)
              && (frame.result.status == Completed ==> s.phase.Completing?)
            else
              t.phase != Finished && (t.phase.Completing? ==> EndsInTurnCompleted(t.yielded))
  }

  lemma ErrorResponseMoves(s: State, m: Record)
    requires s.phase == Reading
    ensures Moves(s, OnErrorResponse(s, m))
  {}

  lemma ThreadStartedMoves(s: State, result: Option<Record>)
    requires s.phase == Reading
    ensures Moves(s, OnThreadStarted(s, result))
  {}

  lemma InitializedMoves(s: State)
    requires s.phase == Reading
    ensures Moves(s, OnInitialized(s))
  {}

  lemma SuccessResponseMoves(s: State, m: Record)
    requires s.phase == Reading
    ensures Moves(s, OnSuccessResponse(s, m))
  {
    InitializedMoves(s);
    ThreadStartedMoves(s, AsRecord(Field(Some(m), "result")));
  }

  /** An owned notification only touches the learned turn id, the final message and the usage. */
  lemma AbsorbShape(s: State, name: string, p: Option<Record>)
    ensures var t := Absorb(s, name, p);
            && t == s.(ownTurnId := t.ownTurnId, finalMessage := t.finalMessage, usage := t.usage)
            && (s.ownTurnId.Some? ==> t.ownTurnId == s.ownTurnId)
  {}

  ghost predicate Notifies(s: State, t: State, m: Record) {
    && t == s.(ownTurnId := t.ownTurnId, finalMessage := t.finalMessage, usage := t.usage,
               yielded := t.yielded, phase := t.phase)
    && (s.ownTurnId.Some? ==> t.ownTurnId == s.ownTurnId)
    && (t.yielded == s.yielded + [Native(m)] || t.yielded == s.yielded + [Foreign(m)])
    && (t.phase == s.phase || (t.phase.Completing? && EndsInTurnCompleted(t.yielded)))
  }

  lemma NotificationShape(s: State, m: Record)
    requires IsNotification(m)
    ensures Notifies(s, OnNotification(s, m, StringAt(Some(m), "method").value), m)
  {
    var name, p := StringAt(Some(m), "method").value, AsRecord(Field(Some(m), "params"));
    var u := Absorb(s, name, p);
    AbsorbShape(s, name, p);
    var t := OnNotification(s, m, name);
    assert if !Belongs(s.ownThreadId, s.ownTurnId, p) then t == Yield(s, Foreign(m))
           else t == Yield(u, Native(m)).(phase := t.phase);
  }

  lemma NotifyingMoves(s: State, t: State, m: Record)
    requires s.phase == Reading && Notifies(s, t, m)
    ensures Moves(s, t)
  {}

  lemma EndMoves(s: State, exit: AppServerExit)
    ensures s.phase.Completing? ==> Moves(s, Finish(s, TerminalFromTurn(s, s.phase.turn)))
    ensures s.phase == AwaitingExit ==> Moves(s, Finish(s, ExitResult(s, exit)))
  {}

  lemma StepMoves(s: State, input: Input)
    ensures Moves(s, Step(s, input))
  {
    match input
    case Message(m) =>
      if s.phase == Reading {
        if IsResponse(m) {
          ErrorResponseMoves(s, m);
          SuccessResponseMoves(s, m);
        } else if IsNotification(m) {
          NotificationShape(s, m);
          NotifyingMoves(s, OnNotification(s, m, StringAt(Some(m), "method").value), m);
        }
      }
    case Resume => EndMoves(s, AppServerExit(None, "", false, None));
    case ChildExit(exit) => EndMoves(s, exit);
    case _ =>
  }

  lemma MovesKeepDiscipline(s: State, t: State)
    requires Moves(s, t) && Disciplined(s)
    ensures Disciplined(t)
  {
    if t.yielded != s.yielded {
      assert t.yielded[..|t.yielded| - 1] == s.yielded;
    }
    if s.interruptSent && !s.killed {
      var i :| 0 <= i < |s.sent| && s.sent[i].Interrupt?;
      assert t.sent[i].Interrupt?;
    }
  }

  lemma {:induction false} RunIsDisciplined(s: State, inputs: seq<Input>)
    requires Disciplined(s)
    ensures Disciplined(Run(s, inputs))
    decreases inputs
  {
    if inputs != [] {
      StepMoves(s, inputs[0]);
      MovesKeepDiscipline(s, Step(s, inputs[0]));
      RunIsDisciplined(Step(s, inputs[0]), inputs[1..]);
    }
  }

  /** Over every run: no terminal frame before the generator finishes, and afterwards exactly one, last,
      honest about errors, aborts and completion, with the child killed. */
  lemma ExactlyOneTerminal(preAborted: bool, inputs: seq<Input>)
    ensures var s := Run(Initial(preAborted), inputs);
            && AbortReachedChild(s)
            && if s.phase == Finished then s.killed && EndsInItsOnlyTerminal(s.yielded) && OutcomeIsHonest(s)
               else NoTerminal(s.yielded)
  {
    RunIsDisciplined(Initial(preAborted), inputs);
  }

  // ----- what is learned is kept -----

  /** A learned turn id never changes, an observed abort is never forgotten, frames and messages are only
      ever added, and a finished run is frozen. */
  lemma {:induction false} RunKeeps(s: State, inputs: seq<Input>)
    ensures var t := Run(s, inputs);
            && (s.ownTurnId.Some? ==> t.ownTurnId == s.ownTurnId)
            && (s.interruptSent ==> t.interruptSent)
            && s.yielded <= t.yielded && s.sent <= t.sent
            && (s.phase == Finished ==> t == s)
    decreases inputs
  {
    if inputs != [] {
      var next := Step(s, inputs[0]);
      StepMoves(s, inputs[0]);
      RunKeeps(next, inputs[1..]);
    }
  }

  /** An abort that fires at any point before the terminal frame rules out a completed outcome. */
  lemma AbortRulesOutCompletion(preAborted: bool, before: seq<Input>, after: seq<Input>)
    requires Run(Initial(preAborted), before).phase != Finished
    ensures var s := Run(Initial(preAborted), before + [Abort] + after);
            s.phase == Finished ==> EndsInItsOnlyTerminal(s.yielded) && Outcome(s.yielded).status != Completed
  {
    var start := Initial(preAborted);
    var mid := Run(start, before);
    Machine.RunAppend(Step, start, before + [Abort], after);
    Machine.RunAppend(Step, start, before, [Abort]);
    assert Run(mid, [Abort]) == Run(Step(mid, Abort), []);
    RunKeeps(Step(mid, Abort), after);
    RunIsDisciplined(start, before + [Abort] + after);
  }

  // ----- the client follows its script -----

  /** The client's own messages, replies to server requests left out. */
  ghost function Client(sent: seq<Outgoing>): seq<Outgoing> {
    if sent == [] then []
    else if sent[|sent| - 1].Reply? then Client(sent[..|sent| - 1])
    else Client(sent[..|sent| - 1]) + [sent[|sent| - 1]]
  }

  ghost function Script(threadId: string, turnId: string): seq<Outgoing> {
    [Initialize(1), Initialized, ThreadStart(2), TurnStart(3, threadId), Interrupt(4, threadId, turnId)]
  }

  /** Each handshake message at most once, in order, with strictly increasing request ids. */
  ghost predicate FollowsScript(messages: seq<Outgoing>) {
    exists threadId, turnId :: messages <= Script(threadId, turnId)
  }

  predicate IsSuccess(m: Record) { IsResponse(m) && !Present(m, "error") }

  /** A response that makes the runner repeat a handshake step or skip ahead: a second answer to
      `initialize`, a second answer to `thread/start`, or one carrying the unset-id sentinel -1. */
  predicate Restarts(s: State, m: Record) {
    var nid := NumberAt(Some(m), "id");
    && s.phase == Reading && IsSuccess(m)
    && if nid == Some(s.initId) then s.threadStartId != -1
       else
         && nid == Some(s.threadStartId)
         && (s.threadStartId == -1 || s.turnStartId != -1)
         && StringAt(AsRecord(Field(AsRecord(Field(Some(m), "result")), "thread")), "id").Some?
  }

  predicate NeverRestarts(s: State, inputs: seq<Input>)
    decreases inputs
  {
    inputs == [] ||
    (!(inputs[0].Message? && Restarts(s, inputs[0].record)) && NeverRestarts(Step(s, inputs[0]), inputs[1..]))
  }

  /** The reachable conversation states of a run that never restarts. */
  ghost predicate Scripted(s: State) {
    var c := Client(s.sent);
    if s.phase == Finished then FollowsScript(c) else
    && s.initId == 1
    && if s.threadStartId == -1 then
         s.nextId == 1 && s.turnStartId == -1 && s.interruptId == -1 && s.ownThreadId.None? &&
         c == [Initialize(1)]
       else if s.turnStartId == -1 then
         s.threadStartId == 2 && s.nextId == 2 && s.interruptId == -1 && s.ownThreadId.None? &&
         c == [Initialize(1), Initialized, ThreadStart(2)]
       else
         && s.threadStartId == 2 && s.turnStartId == 3 && s.ownThreadId.Some?
         && if s.interruptId == -1 then
              s.nextId == 3 && c == Script(s.ownThreadId.value, "")[..4]
            else
              s.nextId == 4 && s.interruptId == 4 && s.interruptSent && s.ownTurnId.Some? &&
              c == Script(s.ownThreadId.value, s.ownTurnId.value)
  }

  lemma ClientGrows(a: seq<Outgoing>, m: Outgoing)
    ensures Client(a + [m]) == if m.Reply? then Client(a) else Client(a) + [m]
  {
    assert (a + [m])[..|a|] == a;
  }

  lemma ScriptedFollows(s: State)
    requires Scripted(s)
    ensures FollowsScript(Client(s.sent))
  {
    if s.phase != Finished {
      var threadId := if s.ownThreadId.Some? then s.ownThreadId.value else "";
      var turnId := if s.interruptId != -1 && s.ownTurnId.Some? then s.ownTurnId.value else "";
      assert Client(s.sent) <= Script(threadId, turnId);
    }
  }

  lemma AbortKeepsScript(s: State)
    requires Scripted(s)
    ensures Scripted(Step(s, Abort))
  {
    var t := Step(s, Abort);
    if t.sent != s.sent {
      var last := t.sent[|s.sent|];
      assert t.sent == s.sent + [last];
      ClientGrows(s.sent, last);
    }
  }

  /** A step that sends nothing of the client's own and leaves the request ids and the thread alone. */
  ghost predicate Quiet(s: State, t: State) {
    && Client(t.sent) == Client(s.sent)
    && (t.phase == Finished ||
        (&& t.initId == s.initId && t.nextId == s.nextId && t.threadStartId == s.threadStartId
         && t.turnStartId == s.turnStartId && t.interruptId == s.interruptId && t.ownThreadId == s.ownThreadId
         && t.interruptSent == s.interruptSent && (s.ownTurnId.Some? ==> t.ownTurnId == s.ownTurnId)))
  }

  lemma QuietKeepsScript(s: State, t: State)
    requires Scripted(s) && Quiet(s, t) && s.phase != Finished
    ensures Scripted(t)
  {
    ScriptedFollows(s);
  }

  lemma ErrorResponseIsQuiet(s: State, m: Record)
    ensures Quiet(s, OnErrorResponse(s, m))
  {}

  lemma NotifyingIsQuiet(s: State, t: State, m: Record)
    requires Notifies(s, t, m)
    ensures Quiet(s, t)
  {}

  lemma InitializedKeepsScript(s: State)
    requires Scripted(s) && s.phase == Reading && s.threadStartId == -1
    ensures Scripted(OnInitialized(s))
  {
    assert OnInitialized(s).sent == s.sent + [Initialized] + [ThreadStart(s.nextId + 1)];
    ClientGrows(s.sent, Initialized);
    ClientGrows(s.sent + [Initialized], ThreadStart(s.nextId + 1));
  }

  lemma ThreadStartedKeepsScript(s: State, result: Option<Record>)
    requires Scripted(s) && s.phase == Reading
    requires StringAt(AsRecord(Field(result, "thread")), "id").Some? ==> s.threadStartId != -1 && s.turnStartId == -1
    ensures Scripted(OnThreadStarted(s, result))
  {
    ScriptedFollows(s);
    var t := OnThreadStarted(s, result);
    if t.sent != s.sent {
      ClientGrows(s.sent, t.sent[|s.sent|]);
    }
  }

  lemma SuccessKeepsScript(s: State, m: Record)
    requires Scripted(s) && s.phase == Reading && IsSuccess(m) && !Restarts(s, m)
    ensures Scripted(OnSuccessResponse(s, m))
  {
    var nid := NumberAt(Some(m), "id");
    if nid == Some(s.initId) {
      InitializedKeepsScript(s);
    } else if nid == Some(s.threadStartId) {
      ThreadStartedKeepsScript(s, AsRecord(Field(Some(m), "result")));
    } else {
      QuietKeepsScript(s, OnSuccessResponse(s, m));
    }
  }

  lemma MessageKeepsScript(s: State, m: Record)
    requires Scripted(s) && s.phase == Reading && !Restarts(s, m)
    ensures Scripted(OnMessage(s, m))
  {
    if IsSuccess(m) {
      SuccessKeepsScript(s, m);
    } else if IsResponse(m) {
      ErrorResponseIsQuiet(s, m);
      QuietKeepsScript(s, OnErrorResponse(s, m));
    } else if IsNotification(m) {
      NotificationShape(s, m);
      NotifyingIsQuiet(s, OnMessage(s, m), m);
      QuietKeepsScript(s, OnMessage(s, m));
    } else {
      if !IsParseError(m) && Present(m, "id") {
        ClientGrows(s.sent, Reply(m["id"], StringAt(Some(m), "method").value));
      }
      QuietKeepsScript(s, OnMessage(s, m));
    }
  }

  lemma OtherInputKeepsScript(s: State, input: Input)
    requires Scripted(s) && !(input.Message? && s.phase == Reading)
    ensures Scripted(Step(s, input))
  {
    if input.Abort? { AbortKeepsScript(s); } else { ScriptedFollows(s); }
  }

  /** A restart shows at once in what the client has sent, and for good. */
  lemma RestartBreaksScript(s: State, m: Record)
    requires Scripted(s) && Restarts(s, m)
    ensures !FollowsScript(Client(Step(s, Message(m)).sent))
  {
    var t := Step(s, Message(m));
    var c := Client(t.sent);
    if NumberAt(Some(m), "id") == Some(s.initId) {
      assert t.sent == s.sent + [Initialized] + [ThreadStart(s.nextId + 1)];
      ClientGrows(s.sent, Initialized);
      ClientGrows(s.sent + [Initialized], ThreadStart(s.nextId + 1));
      assert c[|c| - 2] == Initialized && |c| > 4;
    } else {
      var last := t.sent[|s.sent|];
      assert t.sent == s.sent + [last] && last.TurnStart?;
      ClientGrows(s.sent, last);
      assert c[|c| - 1] == last && |c| != 4;
    }
  }

  lemma {:induction false} ClientPrefix(a: seq<Outgoing>, b: seq<Outgoing>)
    requires a <= b
    ensures Client(a) <= Client(b)
    decreases |b|
  {
    if |a| < |b| {
      ClientPrefix(a, b[..|b| - 1]);
      assert b == b[..|b| - 1] + [b[|b| - 1]];
      ClientGrows(b[..|b| - 1], b[|b| - 1]);
    } else {
      assert a == b;
    }
  }

  lemma ScriptPrefixClosed(a: seq<Outgoing>, b: seq<Outgoing>)
    requires a <= b && FollowsScript(b)
    ensures FollowsScript(a)
  {
    var threadId, turnId :| b <= Script(threadId, turnId);
    assert a <= Script(threadId, turnId);
  }

  lemma {:induction false} ScriptIffNeverRestarts(s: State, inputs: seq<Input>)
    requires Scripted(s)
    ensures FollowsScript(Client(Run(s, inputs).sent)) <==> NeverRestarts(s, inputs)
    decreases inputs
  {
    if inputs == [] {
      ScriptedFollows(s);
    } else {
      var t := Step(s, inputs[0]);
      if inputs[0].Message? && Restarts(s, inputs[0].record) {
        RestartBreaksScript(s, inputs[0].record);
        RunKeeps(t, inputs[1..]);
        ClientPrefix(t.sent, Run(t, inputs[1..]).sent);
        if FollowsScript(Client(Run(t, inputs[1..]).sent)) {
          ScriptPrefixClosed(Client(t.sent), Client(Run(t, inputs[1..]).sent));
        }
      } else {
        if inputs[0].Message? && s.phase == Reading {
          MessageKeepsScript(s, inputs[0].record);
        } else {
          OtherInputKeepsScript(s, inputs[0]);
        }
        ScriptIffNeverRestarts(t, inputs[1..]);
      }
    }
  }

  /** Over every run, the client's messages are a prefix of the script exactly when no response restarts it. */
  lemma HandshakeOrder(preAborted: bool, inputs: seq<Input>)
    ensures FollowsScript(Client(Run(Initial(preAborted), inputs).sent)) <==> NeverRestarts(Initial(preAborted), inputs)
  {
    assert Initial(preAborted).sent == [] + [Initialize(1)];
    ClientGrows([], Initialize(1));
    ScriptIffNeverRestarts(Initial(preAborted), inputs);
  }

  /** The request id a success response answers. */
  function Answered(input: Input): Option<int> {
    if input.Message? && IsSuccess(input.record) then NumberAt(Some(input.record), "id") else None
  }

  /** The server answers each request id at most once, and never the sentinel -1. */
  predicate AnswersOnce(seen: set<int>, inputs: seq<Input>)
    decreases inputs
  {
    if inputs == [] then true else
    var id := Answered(inputs[0]);
    if id.Some? then id.value != -1 && id.value !in seen && AnswersOnce(seen + {id.value}, inputs[1..])
    else AnswersOnce(seen, inputs[1..])
  }

  /** The ids of `thread/start` and `turn/start` are issued only by a success response to their predecessor. */
  ghost predicate IssuedBy(s: State, t: State, answered: Option<int>) {
    && (t.threadStartId != s.threadStartId ==> answered == Some(s.initId))
    && (t.turnStartId != s.turnStartId ==> answered == Some(s.threadStartId))
  }

  lemma SuccessIssues(s: State, m: Record)
    ensures IssuedBy(s, OnSuccessResponse(s, m), NumberAt(Some(m), "id"))
  {}

  lemma StepIssues(s: State, input: Input)
    ensures IssuedBy(s, Step(s, input), Answered(input))
  {
    if input.Message? && s.phase == Reading {
      if IsSuccess(input.record) {
        SuccessIssues(s, input.record);
      } else if IsNotification(input.record) {
        NotificationShape(s, input.record);
      }
    }
  }

  lemma {:induction false} AnswersOnceNeverRestarts(s: State, seen: set<int>, inputs: seq<Input>)
    requires Scripted(s) && AnswersOnce(seen, inputs)
    requires s.phase != Finished ==> (s.threadStartId != -1 ==> 1 in seen) && (s.turnStartId != -1 ==> 2 in seen)
    ensures NeverRestarts(s, inputs)
    decreases inputs
  {
    if inputs != [] {
      var answered := Answered(inputs[0]);
      StepIssues(s, inputs[0]);
      if inputs[0].Message? && s.phase == Reading {
        MessageKeepsScript(s, inputs[0].record);
      } else {
        OtherInputKeepsScript(s, inputs[0]);
      }
      AnswersOnceNeverRestarts(Step(s, inputs[0]),
                               if answered.Some? then seen + {answered.value} else seen, inputs[1..]);
    }
  }

  /** Against a server that answers each id at most once, the handshake is sent once and in order, and
      `turn/interrupt` at most once, after `turn/start`, naming the runner's own thread and turn. */
  lemma HandshakeSafety(preAborted: bool, inputs: seq<Input>)
    requires AnswersOnce({}, inputs)
    ensures FollowsScript(Client(Run(Initial(preAborted), inputs).sent))
  {
    assert Initial(preAborted).sent == [] + [Initialize(1)];
    ClientGrows([], Initialize(1));
    AnswersOnceNeverRestarts(Initial(preAborted), {}, inputs);
    ScriptIffNeverRestarts(Initial(preAborted), inputs);
  }

  lemma SentinelStep(m: Record, result: Record, thread: Record)
    requires m == map["id" := Num(-1), "result" := Obj(result)]
    requires result == map["thread" := Obj(thread)]
    requires thread == map["id" := Str("t")]
    ensures Step(Initial(false), Message(m)).sent == [Initialize(1), TurnStart(2, "t")]
  {
    assert AsRecord(Field(Some(m), "result")) == Some(result);
    assert AsRecord(Field(Some(result), "thread")) == Some(thread);
    assert OnMessage(Initial(false), m) == OnSuccessResponse(Initial(false), m);
    assert OnSuccessResponse(Initial(false), m) == OnThreadStarted(Initial(false), Some(result));
  }

  /** The sentinel at work: a first response with id -1 and a thread makes the client send `turn/start`
      before `initialized`. */
  lemma SentinelSkipsHandshake()
    ensures exists m: Record ::
              NumberAt(Some(m), "id") == Some(-1) &&
              Step(Initial(false), Message(m)).sent == [Initialize(1), TurnStart(2, "t")]
  {
    var thread: Record := map["id" := Str("t")];
    var result: Record := map["thread" := Obj(thread)];
    var m: Record := map["id" := Num(-1), "result" := Obj(result)];
    SentinelStep(m, result, thread);
    assert NumberAt(Some(m), "id") == Some(-1);
  }
}
