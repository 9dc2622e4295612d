/** Messages that are not ours cannot disturb a turn: they are surfaced exactly once, and every other frame,
    the terminal frame included, is what it would have been without them. */
module NonInterference {
  import opened Json
  import opened CodexAppServer
  import opened RunnerSafety
  import Machine

  // ----- one message -----

  /** A response whose id matches none of the requests the runner is tracking. */
  predicate ForeignResponse(s: State, m: Record) {
    var nid := NumberAt(Some(m), "id");
    && IsResponse(m)
    && if Present(m, "error") then
         nid != Some(s.interruptId) && !(nid.Some? && nid.value in s.pending)
       else
         nid != Some(s.initId) && nid != Some(s.threadStartId) && nid != Some(s.turnStartId)
  }

  predicate ForeignNotification(s: State, m: Record) {
    IsNotification(m) && !Belongs(s.ownThreadId, s.ownTurnId, AsRecord(Field(Some(m), "params")))
  }

  predicate IsForeign(s: State, m: Record) { ForeignResponse(s, m) || ForeignNotification(s, m) }

  /** How a foreign message is surfaced. */
  function Surfaced(m: Record): Frame {
    if IsNotification(m) then Foreign(m) else Native(m)
  }

  /** A response or a notification only adds its own surfaced frame exactly when it is foreign. */
  lemma InertIffForeign(s: State, m: Record)
    requires s.phase == Reading && (IsResponse(m) || IsNotification(m))
    ensures Step(s, Message(m)) == Yield(s, Surfaced(m)) <==> IsForeign(s, m)
  {
    var t := OnMessage(s, m);
    if IsNotification(m) {
      NotificationShape(s, m);
      if Belongs(s.ownThreadId, s.ownTurnId, AsRecord(Field(Some(m), "params"))) {
        assert t.yielded[|s.yielded|] == Native(m);
      }
    } else if Present(m, "error") {
      assert t == OnErrorResponse(s, m);
    } else {
      OwnSuccessIsNotInert(s, m);
    }
  }

  lemma OwnSuccessIsNotInert(s: State, m: Record)
    requires s.phase == Reading && IsSuccess(m)
    ensures OnSuccessResponse(s, m) == Yield(s, Native(m)) <==> ForeignResponse(s, m)
  {
    var t := OnSuccessResponse(s, m);
    if NumberAt(Some(m), "id") == Some(s.threadStartId) && NumberAt(Some(m), "id") != Some(s.initId) {
      assert t.phase == Finished || |t.sent| > |s.sent|;
    }
  }

  /** The tracked request ids have all been issued, or are still the sentinel -1. */
  ghost predicate IdsIssued(s: State) {
    && s.initId in s.pending
    && s.threadStartId in s.pending + {-1}
    && s.turnStartId in s.pending + {-1}
    && s.interruptId in s.pending + {-1}
  }

  lemma InitializedKeepsIdsIssued(s: State)
    requires IdsIssued(s)
    ensures IdsIssued(OnInitialized(s))
  {}

  lemma ThreadStartedKeepsIdsIssued(s: State, result: Option<Record>)
    requires IdsIssued(s)
    ensures IdsIssued(OnThreadStarted(s, result))
  {}

  lemma SuccessKeepsIdsIssued(s: State, m: Record)
    requires IdsIssued(s)
    ensures IdsIssued(OnSuccessResponse(s, m))
  {
    InitializedKeepsIdsIssued(s);
    ThreadStartedKeepsIdsIssued(s, AsRecord(Field(Some(m), "result")));
  }

  lemma ErrorKeepsIdsIssued(s: State, m: Record)
    requires IdsIssued(s)
    ensures IdsIssued(OnErrorResponse(s, m))
  {}

  lemma MessageKeepsIdsIssued(s: State, m: Record)
    requires IdsIssued(s)
    ensures IdsIssued(OnMessage(s, m))
  {
    if IsSuccess(m) {
      SuccessKeepsIdsIssued(s, m);
    } else if IsResponse(m) {
      ErrorKeepsIdsIssued(s, m);
    } else if IsNotification(m) {
      NotificationShape(s, m);
    }
  }

  lemma OtherInputKeepsIdsIssued(s: State, input: Input)
    requires IdsIssued(s) && !input.Message?
    ensures IdsIssued(Step(s, input))
  {}

  lemma StepKeepsIdsIssued(s: State, input: Input)
    requires IdsIssued(s)
    ensures IdsIssued(Step(s, input))
  {
    if input.Message? { MessageKeepsIdsIssued(s, input.record); } else { OtherInputKeepsIdsIssued(s, input); }
  }

  lemma RunKeepsIdsIssued(s: State, inputs: seq<Input>)
    requires IdsIssued(s)
    ensures IdsIssued(Run(s, inputs))
  {
    forall t, e | IdsIssued(t) ensures IdsIssued(Step(t, e)) { StepKeepsIdsIssued(t, e); }
    Machine.RunKeeps(Step, IdsIssued, s, inputs);
  }

  /** At any point of any run, a response whose id is not a number, or was never issued and is not the
      sentinel -1, is foreign. */
  lemma UnissuedIsForeign(preAborted: bool, inputs: seq<Input>, m: Record)
    requires IsResponse(m)
    requires var s := Run(Initial(preAborted), inputs); var nid := NumberAt(Some(m), "id");
             nid.None? || (nid.value != -1 && nid.value !in s.pending)
    ensures IsForeign(Run(Initial(preAborted), inputs), m)
  {
    RunKeepsIdsIssued(Initial(preAborted), inputs);
  }

  // ----- steps never look at what has been yielded -----

  ghost predicate Emits(s: State, t: State, frames: seq<Frame>) { t.yielded == s.yielded + frames }

  /** The frames one step adds. */
  ghost function Emitted(s: State, input: Input): (frames: seq<Frame>)
    ensures Emits(s, Step(s, input), frames)
  {
    StepMoves(s, input);
    Step(s, input).yielded[|s.yielded|..]
  }

  /** From `s` and from `s` with other past frames `y`, a step made the same move. */
  ghost predicate SameMove(s: State, t: State, y: seq<Frame>, u: State) {
    && s.yielded <= t.yielded
    && u == t.(yielded := y + t.yielded[|s.yielded|..])
  }

  lemma YieldIsSameMove(s: State, y: seq<Frame>, t: State, frame: Frame)
    requires t.yielded == s.yielded + [frame]
    ensures SameMove(s, t, y, t.(yielded := y + [frame]))
  {
    assert t.yielded[|s.yielded|..] == [frame];
  }

  lemma SilentIsSameMove(s: State, y: seq<Frame>, t: State)
    requires t.yielded == s.yielded
    ensures SameMove(s, t, y, t.(yielded := y))
  {
    assert y + t.yielded[|s.yielded|..] == y;
  }

  lemma ErrorResponseIgnoresYields(s: State, y: seq<Frame>, m: Record)
    ensures SameMove(s, OnErrorResponse(s, m), y, OnErrorResponse(s.(yielded := y), m))
  {
    var t := OnErrorResponse(s, m);
    if t.yielded == s.yielded { SilentIsSameMove(s, y, t); } else { YieldIsSameMove(s, y, t, t.yielded[|s.yielded|]); }
  }

  lemma ThreadStartedIgnoresYields(s: State, y: seq<Frame>, result: Option<Record>)
    ensures SameMove(s, OnThreadStarted(s, result), y, OnThreadStarted(s.(yielded := y), result))
  {
    var t := OnThreadStarted(s, result);
    if t.yielded == s.yielded { SilentIsSameMove(s, y, t); } else { YieldIsSameMove(s, y, t, t.yielded[|s.yielded|]); }
  }

  lemma SuccessResponseIgnoresYields(s: State, y: seq<Frame>, m: Record)
    ensures SameMove(s, OnSuccessResponse(s, m), y, OnSuccessResponse(s.(yielded := y), m))
  {
    var nid := NumberAt(Some(m), "id");
    var t := OnSuccessResponse(s, m);
    if nid != Some(s.initId) && nid == Some(s.threadStartId) {
      ThreadStartedIgnoresYields(s, y, AsRecord(Field(Some(m), "result")));
    } else if nid == Some(s.initId) || nid == Some(s.turnStartId) {
      SilentIsSameMove(s, y, t);
    } else {
      YieldIsSameMove(s, y, t, Native(m));
    }
  }

  lemma AbsorbIgnoresYields(s: State, y: seq<Frame>, name: string, p: Option<Record>)
    ensures Absorb(s.(yielded := y), name, p) == Absorb(s, name, p).(yielded := y)
  {}

  lemma NotificationIgnoresYields(s: State, y: seq<Frame>, m: Record, name: string)
    ensures SameMove(s, OnNotification(s, m, name), y, OnNotification(s.(yielded := y), m, name))
  {
    var p := AsRecord(Field(Some(m), "params"));
    AbsorbShape(s, name, p);
    AbsorbIgnoresYields(s, y, name, p);
    var t := OnNotification(s, m, name);
    YieldIsSameMove(s, y, t, t.yielded[|s.yielded|]);
  }

  lemma OtherMessageIgnoresYields(s: State, y: seq<Frame>, m: Record)
    requires !IsResponse(m) && !IsNotification(m)
    ensures SameMove(s, OnMessage(s, m), y, OnMessage(s.(yielded := y), m))
  {
    var t := OnMessage(s, m);
    YieldIsSameMove(s, y, t, t.yielded[|s.yielded|]);
  }

  lemma StepIgnoresYields(s: State, y: seq<Frame>, input: Input)
    ensures Step(s.(yielded := y), input) == Step(s, input).(yielded := y + Emitted(s, input))
  {
    var t := Step(s, input);
    if input.Message? && s.phase == Reading {
      var m := input.record;
      if IsResponse(m) {
        ErrorResponseIgnoresYields(s, y, m);
        SuccessResponseIgnoresYields(s, y, m);
      } else if IsNotification(m) {
        NotificationIgnoresYields(s, y, m, StringAt(Some(m), "method").value);
      } else {
        OtherMessageIgnoresYields(s, y, m);
      }
    } else if t.yielded == s.yielded {
      SilentIsSameMove(s, y, t);
    } else {
      YieldIsSameMove(s, y, t, t.yielded[|s.yielded|]);
    }
  }

  // ----- whole runs -----

  /** An inserted input: a message the runner reads that is foreign at that point. */
  predicate ForeignInput(s: State, input: Input) {
    input.Message? && s.phase == Reading && IsForeign(s, input.record)
  }

  function SurfacedInput(input: Input): Frame {
    if input.Message? then Surfaced(input.record) else NonObject
  }

  function WithFrames(s: State, frames: seq<Frame>): State { s.(yielded := frames) }

  lemma RunnerLogs()
    ensures Machine.Logs(Step, Emitted, WithFrames)
  {
    forall s, y, i ensures Step(WithFrames(s, y), i) == WithFrames(Step(s, i), y + Emitted(s, i)) {
      StepIgnoresYields(s, y, i);
    }
  }

  lemma ForeignSurfaces()
    ensures Machine.Surfaces(Step, Emitted, WithFrames, ForeignInput, SurfacedInput)
  {
    forall s: State, i | ForeignInput(s, i)
      ensures Emitted(s, i) == [SurfacedInput(i)] && forall y :: WithFrames(Step(s, i), y) == WithFrames(s, y)
    {
      InertIffForeign(s, i.record);
      assert Step(s, i) == Yield(s, Surfaced(i.record));
    }
  }

  /** Inserting foreign messages anywhere in a schedule changes nothing but their own surfacing: the noisy
      run yields the clean run's frames in order, interleaved with each inserted message exactly once, and
      reaches the same conversation state; the outcome is the same. */
  lemma ForeignMessagesDoNotInterfere(preAborted: bool, schedule: seq<Machine.Tagged<Input>>)
    requires Machine.OnlyInert(Step, ForeignInput, Initial(preAborted), schedule)
    ensures var trace := Machine.Trace(Step, Emitted, Initial(preAborted), schedule);
            var noisy := Run(Initial(preAborted), Machine.Items(schedule));
            var clean := Run(Initial(preAborted), Machine.Select(schedule, false));
            && noisy.yielded == Machine.Items(trace)
            && clean.yielded == Machine.Select(trace, false)
            && Machine.Select(trace, true) == Machine.Map(SurfacedInput, Machine.Select(schedule, true))
            && clean == noisy.(yielded := clean.yielded)
            && (clean.phase == Finished ==>
                  EndsInItsOnlyTerminal(noisy.yielded) && EndsInItsOnlyTerminal(clean.yielded) &&
                  Outcome(noisy.yielded) == Outcome(clean.yielded))
  {
    var start := Initial(preAborted);
    var trace := Machine.Trace(Step, Emitted, start, schedule);
    RunnerLogs();
    ForeignSurfaces();
    Machine.TraceIsOutput(Step, Emitted, WithFrames, start, [], schedule);
    Machine.InsertionsAreErasable(Step, Emitted, WithFrames, ForeignInput, SurfacedInput, start, [], schedule);
    Machine.InsertionsAreSurfaced(Step, Emitted, WithFrames, ForeignInput, SurfacedInput, start, schedule);
    assert WithFrames(start, []) == start;
    assert [] + Machine.Items(trace) == Machine.Items(trace);
    assert [] + Machine.Select(trace, false) == Machine.Select(trace, false);
    ExactlyOneTerminal(preAborted, Machine.Items(schedule));
    ExactlyOneTerminal(preAborted, Machine.Select(schedule, false));
    SameOutcome(trace, Machine.Select(schedule, true));
  }

  /** An only terminal frame that is not an insertion's is also the last of the frames that are not. */
  lemma SameOutcome(trace: seq<Machine.Tagged<Frame>>, inserted: seq<Input>)
    requires Machine.Select(trace, true) == Machine.Map(SurfacedInput, inserted)
    ensures EndsInItsOnlyTerminal(Machine.Items(trace)) && EndsInItsOnlyTerminal(Machine.Select(trace, false)) ==>
              Outcome(Machine.Items(trace)) == Outcome(Machine.Select(trace, false))
  {
    if trace != [] {
      Machine.LastItem(trace);
      SurfacedIsNotTerminal(inserted);
    }
  }

  lemma {:induction false} SurfacedIsNotTerminal(inputs: seq<Input>)
    ensures NoTerminal(Machine.Map(SurfacedInput, inputs))
  {
    if inputs != [] {
      SurfacedIsNotTerminal(inputs[1..]);
    }
  }
}
