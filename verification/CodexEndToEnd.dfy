/** Runner, normalizer, pump and queue composed: what the session reports is what the turn did. */
module CodexEndToEnd {
  import opened Json
  import opened CodexAppServer
  import opened CodexNormalizer
  import opened CodexSession
  import RunnerSafety
  import NonInterference
  import Machine
  import CodexExec
  import SchemaRootUnion
  import SchemaSoundness

  function Kinds(events: seq<Event>): (kinds: seq<EventKind>)
    ensures |kinds| == |events|
    ensures forall i :: 0 <= i < |events| ==> kinds[i] == events[i].kind
  {
    seq(|events|, i requires 0 <= i < |events| => events[i].kind)
  }

  /** The normalizer after a stream of frames. */
  function NormAfter(spec: TurnSpec, s: NormState, frames: seq<Frame>): NormState
    decreases frames
  {
    if frames == [] then s else NormAfter(spec, Translate(spec, s, frames[0]).next, frames[1..])
  }

  /** Everything the normalizer says about a stream of frames. */
  function TranslateAll(spec: TurnSpec, s: NormState, frames: seq<Frame>): seq<EventKind>
    decreases frames
  {
    if frames == [] then []
    else Translate(spec, s, frames[0]).kinds + TranslateAll(spec, Translate(spec, s, frames[0]).next, frames[1..])
  }

  lemma {:induction false} TranslateLast(spec: TurnSpec, s: NormState, frames: seq<Frame>, last: Frame)
    ensures TranslateAll(spec, s, frames + [last]) ==
            TranslateAll(spec, s, frames) + Translate(spec, NormAfter(spec, s, frames), last).kinds
    decreases frames
  {
    if frames == [] {
      assert [last][1..] == [] && frames + [last] == [last];
    } else {
      var t := Translate(spec, s, frames[0]);
      assert (frames + [last])[1..] == frames[1..] + [last];
      TranslateLast(spec, t.next, frames[1..], last);
      Regroup(t.kinds, TranslateAll(spec, t.next, frames[1..]),
              Translate(spec, NormAfter(spec, s, frames), last).kinds);
    }
  }

  lemma Regroup(a: seq<EventKind>, b: seq<EventKind>, c: seq<EventKind>)
    ensures (a + b) + c == a + (b + c)
  {}

  // ----- the pump loses nothing below the ceiling -----

  /** A stretch of pumping: the transport yields and the consumer takes, in any interleaving. */
  predicate IsFeed(inputs: seq<PumpInput>) {
    forall i :: 0 <= i < |inputs| ==> inputs[i].Yields? || inputs[i].Takes?
  }

  function FramesOf(inputs: seq<PumpInput>): seq<Frame> {
    if inputs == [] then []
    else (if inputs[0].Yields? then [inputs[0].frame] else []) + FramesOf(inputs[1..])
  }

  ghost predicate OnlyLastIsTerminal(frames: seq<Frame>) {
    forall i :: 0 <= i < |frames| - 1 ==> !IsTerminal(frames[i])
  }

  lemma KindsAppend(a: seq<Event>, b: seq<Event>)
    ensures Kinds(a + b) == Kinds(a) + Kinds(b)
  {}

  /** A contribution that stays below the ceiling is accepted whole. */
  lemma ContributionIsExact(cfg: Config, p: Pump, t: Translation)
    requires Inv(cfg, p) && !p.closed && !p.ended
    requires if t.next.terminated then Settles(t.kinds) else NoEnd(t.kinds)
    ensures var q := Contribute(cfg, p, t);
            && Inv(cfg, q) && !q.closed && q.norm == t.next
            && (!q.overflowTerminated ==>
                Kinds(q.accepted) == Kinds(p.accepted) + t.kinds && q.ended == t.next.terminated)
  {
    ContributionKeepsInv(cfg, p, t, Contribute(cfg, p, t));
    var events := Stamp(p.counter + t.skipped, t.kinds);
    KindsAppend(p.accepted, events);
    assert Kinds(events) == t.kinds;
    if Settles(t.kinds) {
      var outcome :| t.kinds == Settlement(outcome);
      assert t.kinds[|t.kinds| - 1].SessionEnded?;
    }
  }

  lemma {:induction false} OverflowSticks(cfg: Config, p: Pump, inputs: seq<PumpInput>)
    requires Inv(cfg, p) && p.overflowTerminated
    ensures PumpRun(cfg, p, inputs).overflowTerminated
    decreases inputs
  {
    if inputs != [] {
      StepKeepsInv(cfg, p, inputs[0]);
      OverflowSticks(cfg, PumpStep(cfg, p, inputs[0]), inputs[1..]);
    }
  }

  /** From `p` the pump reached `q` having accepted, unless it overflowed, exactly what the frames translate to. */
  ghost predicate Exact(cfg: Config, p: Pump, frames: seq<Frame>, q: Pump) {
    && Inv(cfg, q) && !q.closed
    && (!q.overflowTerminated ==>
          && Kinds(q.accepted) == Kinds(p.accepted) + TranslateAll(cfg.spec, p.norm, frames)
          && q.ended == (p.ended || (frames != [] && IsTerminal(frames[|frames| - 1]))))
  }

  lemma ExactNothing(cfg: Config, p: Pump)
    requires Inv(cfg, p) && !p.closed
    ensures Exact(cfg, p, [], p)
  {
    assert Kinds(p.accepted) + [] == Kinds(p.accepted);
  }

  /** One frame first, then the rest. */
  lemma ExactThen(cfg: Config, p: Pump, frame: Frame, later: seq<Frame>, q: Pump, r: Pump)
    requires Exact(cfg, q, later, r) && !p.ended && q.ended == IsTerminal(frame) && (q.ended ==> later == [])
    requires Kinds(q.accepted) + TranslateAll(cfg.spec, q.norm, later) ==
             Kinds(p.accepted) + TranslateAll(cfg.spec, p.norm, [frame] + later)
    ensures Exact(cfg, p, [frame] + later, r)
  {
    var frames := [frame] + later;
    assert frames[|frames| - 1] == if later == [] then frame else later[|later| - 1];
  }

  /** However the consumer interleaves, below the ceiling the pump accepts exactly what the normalizer says. */
  lemma {:induction false} FeedIsExact(cfg: Config, p: Pump, feed: seq<PumpInput>)
    requires Inv(cfg, p) && !p.closed && IsFeed(feed)
    requires if p.ended then FramesOf(feed) == [] else !p.norm.terminated && OnlyLastIsTerminal(FramesOf(feed))
    ensures Exact(cfg, p, FramesOf(feed), PumpRun(cfg, p, feed))
    decreases feed
  {
    if feed == [] {
      ExactNothing(cfg, p);
    } else {
      var rest := feed[1..];
      var q := PumpStep(cfg, p, feed[0]);
      var r := PumpRun(cfg, q, rest);
      assert PumpRun(cfg, p, feed) == r;
      StepKeepsInv(cfg, p, feed[0]);
      StepLeavesOpen(cfg, p, feed[0]);
      if q.overflowTerminated {
        FeedAfterOverflow(cfg, q, rest);
      } else if feed[0].Takes? {
        assert FramesOf(feed) == FramesOf(rest);
        FeedIsExact(cfg, q, rest);
      } else {
        var frame, later := feed[0].frame, FramesOf(rest);
        assert FramesOf(feed) == [frame] + later;
        YieldIsExact(cfg, p, frame, later);
        FeedIsExact(cfg, q, rest);
        ExactThen(cfg, p, frame, later, q, r);
      }
    }
  }

  lemma FeedAfterOverflow(cfg: Config, p: Pump, feed: seq<PumpInput>)
    requires Inv(cfg, p) && !p.closed && p.overflowTerminated && IsFeed(feed)
    ensures var q := PumpRun(cfg, p, feed); Inv(cfg, q) && !q.closed && q.overflowTerminated
  {
    OverflowSticks(cfg, p, feed);
    RunKeepsInv(cfg, p, feed);
    FeedLeavesOpen(cfg, p, feed);
  }

  /** Pumping and taking never close the queue, and an overflow is never forgotten. */
  lemma StepLeavesOpen(cfg: Config, p: Pump, input: PumpInput)
    requires Inv(cfg, p) && !p.closed && (input.Yields? || input.Takes?)
    ensures var q := PumpStep(cfg, p, input);
            && !q.closed && (p.overflowTerminated ==> q.overflowTerminated)
            && (input.Takes? ==> q == p.(taken := q.taken, bytes := q.bytes))
  {}

  lemma TranslateFirst(spec: TurnSpec, s: NormState, frame: Frame, later: seq<Frame>)
    ensures TranslateAll(spec, s, [frame] + later) ==
            Translate(spec, s, frame).kinds + TranslateAll(spec, Translate(spec, s, frame).next, later)
  {
    assert ([frame] + later)[1..] == later;
  }

  lemma OnlyLastRest(frame: Frame, later: seq<Frame>)
    requires OnlyLastIsTerminal([frame] + later)
    ensures OnlyLastIsTerminal(later) && (IsTerminal(frame) ==> later == [])
  {
    var frames := [frame] + later;
    forall i | 0 <= i < |later| - 1 ensures !IsTerminal(later[i]) {
      assert later[i] == frames[i + 1];
    }
    assert frames[0] == frame;
  }

  /** One yielded frame of a stream in which only the last is terminal. */
  lemma YieldIsExact(cfg: Config, p: Pump, frame: Frame, later: seq<Frame>)
    requires Inv(cfg, p) && !p.closed && !p.ended && !p.overflowTerminated && !p.norm.terminated
    requires OnlyLastIsTerminal([frame] + later)
    ensures var q := PumpStep(cfg, p, Yields(frame));
            && !q.closed
            && (!q.overflowTerminated ==>
                  && Kinds(q.accepted) + TranslateAll(cfg.spec, q.norm, later) ==
                     Kinds(p.accepted) + TranslateAll(cfg.spec, p.norm, [frame] + later)
                  && (if q.ended then later == [] else !q.norm.terminated && OnlyLastIsTerminal(later))
                  && q.ended == IsTerminal(frame))
  {
    var t := Translate(cfg.spec, p.norm, frame);
    TranslationShape(cfg.spec, p.norm, frame);
    ContributionIsExact(cfg, p, t);
    TranslateFirst(cfg.spec, p.norm, frame, later);
    OnlyLastRest(frame, later);
    Regroup(Kinds(p.accepted), t.kinds, TranslateAll(cfg.spec, t.next, later));
  }

  lemma {:induction false} FeedLeavesOpen(cfg: Config, p: Pump, feed: seq<PumpInput>)
    requires Inv(cfg, p) && !p.closed && IsFeed(feed)
    ensures !PumpRun(cfg, p, feed).closed
    decreases feed
  {
    if feed != [] {
      StepKeepsInv(cfg, p, feed[0]);
      StepLeavesOpen(cfg, p, feed[0]);
      FeedLeavesOpen(cfg, PumpStep(cfg, p, feed[0]), feed[1..]);
    }
  }

  // ----- the whole turn -----

  /** No native record carries the adapter's own terminal tag. */
  predicate Unclaimed(frames: seq<Frame>) {
    forall i :: 0 <= i < |frames| ==> !(frames[i].Native? && ClaimsTerminal(frames[i].record))
  }

  lemma {:induction false} RunAfterFeed(cfg: Config, p: Pump, a: seq<PumpInput>, b: seq<PumpInput>)
    ensures PumpRun(cfg, p, a + b) == PumpRun(cfg, PumpRun(cfg, p, a), b)
    decreases a
  {
    if a == [] {
      assert a + b == b;
    } else {
      assert (a + b)[1..] == a[1..] + b;
      RunAfterFeed(cfg, PumpStep(cfg, p, a[0]), a[1..], b);
    }
  }

  /** What a pumped-through turn ends with: below the buffer ceiling, what the terminal frame dictates. */
  ghost function ReportedOutcome(cfg: Config, frames: seq<Frame>, overflowed: bool): SessionOutcome
    requires RunnerSafety.EndsInItsOnlyTerminal(frames)
  {
    if overflowed then EndedFailed(BufferCeiling)
    else OutcomeOf(cfg.spec, NormAfter(cfg.spec, FRESH, frames[..|frames| - 1]), RunnerSafety.Outcome(frames))
  }

  lemma StreamIsReported(cfg: Config, p: Pump, frames: seq<Frame>, feed: seq<PumpInput>)
    requires p == STARTED
    requires RunnerSafety.EndsInItsOnlyTerminal(frames) && Unclaimed(frames)
    requires IsFeed(feed) && FramesOf(feed) == frames
    ensures var q := PumpRun(cfg, p, feed + [Ends]);
            && q.closed && EndsOnce(q.accepted)
            && q.accepted[|q.accepted| - 1].kind == SessionEnded(ReportedOutcome(cfg, frames, q.overflowTerminated))
            && (!q.overflowTerminated ==> Kinds(q.accepted) == TranslateAll(cfg.spec, FRESH, frames))
  {
    var q := PumpRun(cfg, p, feed);
    FeedFromStart(cfg, p, frames, feed);
    EndAfterFeed(cfg, p, feed);
    EndStep(cfg, q);
    LastSaid(cfg, frames, q.accepted, q.overflowTerminated);
  }

  lemma FeedFromStart(cfg: Config, p: Pump, frames: seq<Frame>, feed: seq<PumpInput>)
    requires p == STARTED
    requires RunnerSafety.EndsInItsOnlyTerminal(frames) && Unclaimed(frames)
    requires IsFeed(feed) && FramesOf(feed) == frames
    ensures var q := PumpRun(cfg, p, feed);
            && Inv(cfg, q) && !q.closed && q.ended
            && (!q.overflowTerminated ==> Kinds(q.accepted) == TranslateAll(cfg.spec, FRESH, frames))
  {
    forall i | 0 <= i < |frames| - 1 ensures !IsTerminal(frames[i]) {
      assert frames[i] == frames[..|frames| - 1][i];
    }
    FeedIsExact(cfg, p, feed);
    assert [] + TranslateAll(cfg.spec, FRESH, frames) == TranslateAll(cfg.spec, FRESH, frames);
  }

  lemma EndAfterFeed(cfg: Config, p: Pump, feed: seq<PumpInput>)
    requires var q := PumpRun(cfg, p, feed); Inv(cfg, q) && !q.closed && q.ended
    ensures var q := PumpRun(cfg, p, feed);
            EndsOnce(q.accepted) && PumpRun(cfg, p, feed + [Ends]) == q.(closed := true)
  {
    RunAfterFeed(cfg, p, feed, [Ends]);
    EndStep(cfg, PumpRun(cfg, p, feed));
  }

  lemma LastSaid(cfg: Config, frames: seq<Frame>, accepted: seq<Event>, overflowed: bool)
    requires RunnerSafety.EndsInItsOnlyTerminal(frames) && accepted != []
    requires overflowed ==> accepted[|accepted| - 1].kind == SessionEnded(EndedFailed(BufferCeiling))
    requires !overflowed ==> Kinds(accepted) == TranslateAll(cfg.spec, FRESH, frames)
    ensures accepted[|accepted| - 1].kind == SessionEnded(ReportedOutcome(cfg, frames, overflowed))
  {
    if !overflowed { LastTranslated(cfg, frames, Kinds(accepted)); }
  }

  /** The normalizer's last word on a finished turn. */
  lemma LastTranslated(cfg: Config, frames: seq<Frame>, kinds: seq<EventKind>)
    requires RunnerSafety.EndsInItsOnlyTerminal(frames) && kinds == TranslateAll(cfg.spec, FRESH, frames)
    ensures kinds != [] && kinds[|kinds| - 1] == SessionEnded(ReportedOutcome(cfg, frames, false))
  {
    var front, last := frames[..|frames| - 1], frames[|frames| - 1];
    assert frames == front + [last];
    TranslateLast(cfg.spec, FRESH, front, last);
  }

  /** A finished turn, pumped through to the end of its stream, settles the session once. Below the buffer
      ceiling the session says everything the normalizer says about the turn and ends as the terminal frame
      dictates; at the ceiling it ends failed. Either way an aborted turn never ends completed. */
  lemma SessionReportsTurn(cfg: Config, preAborted: bool, inputs: seq<Input>, feed: seq<PumpInput>)
    requires Run(Initial(preAborted), inputs).phase == Finished
    requires Unclaimed(Run(Initial(preAborted), inputs).yielded)
    requires IsFeed(feed) && FramesOf(feed) == Run(Initial(preAborted), inputs).yielded
    ensures var turn := Run(Initial(preAborted), inputs);
            var p := PumpRun(cfg, STARTED, feed + [Ends]);
            && RunnerSafety.EndsInItsOnlyTerminal(turn.yielded)
            && p.closed && EndsOnce(p.accepted)
            && var outcome := ReportedOutcome(cfg, turn.yielded, p.overflowTerminated);
            && p.accepted[|p.accepted| - 1].kind == SessionEnded(outcome)
            && (!p.overflowTerminated ==> Kinds(p.accepted) == TranslateAll(cfg.spec, FRESH, turn.yielded))
            && (turn.interruptSent ==> !outcome.EndedCompleted?)
            && (outcome.EndedCompleted? ==> RunnerSafety.Outcome(turn.yielded).status == Completed)
  {
    RunnerSafety.ExactlyOneTerminal(preAborted, inputs);
    StreamIsReported(cfg, STARTED, Run(Initial(preAborted), inputs).yielded, feed);
  }

  lemma EndStep(cfg: Config, q: Pump)
    requires Inv(cfg, q) && !q.closed && q.ended
    ensures PumpStep(cfg, q, Ends) == q.(closed := true) && EndsOnce(q.accepted)
    ensures PumpRun(cfg, q, [Ends]) == q.(closed := true)
    ensures q.overflowTerminated ==> q.accepted[|q.accepted| - 1].kind == SessionEnded(EndedFailed(BufferCeiling))
  {
    assert [Ends][1..] == [];
  }

  /** The schema is a root union of objects, and the answer has what one of them asks for. */
  ghost predicate AnswersForABranch(schema: CodexExec.Schema, answer: Json, means: CodexExec.Meaning) {
    && SchemaRootUnion.IsRootUnion(schema, means) && answer.Obj?
    && exists i :: 0 <= i < |schema.unions.any| && SchemaRootUnion.Chooses(schema.unions.any[i], answer.fields, means)
  }

  lemma AnswerIsSound(schema: CodexExec.Schema, answer: Json, means: CodexExec.Meaning)
    requires AnswersForABranch(schema, answer, means)
    requires CodexExec.Valid(CodexExec.SanitizeRoot(schema), answer, means)
    ensures CodexExec.Valid(schema, CodexExec.StripNullDeep(answer), means)
  {
    var i :| 0 <= i < |schema.unions.any| && SchemaRootUnion.Chooses(schema.unions.any[i], answer.fields, means);
    CodexExec.SanitizeShape(CodexExec.Lower(schema));
    SchemaRootUnion.LoweringIsSoundWhenChosen(schema, answer.fields, i, means);
  }

  /** A completed session whose answer parses to a value the sent schema admits hands over a body the caller's
      own schema admits, if that schema is strip-safe or the answer answers for a branch of its root union. */
  lemma StructuredOutputIsValid(spec: TurnSpec, s: NormState, r: TurnResult, schema: CodexExec.Schema,
                                answer: Json, means: CodexExec.Meaning)
    requires spec.schemaRequested && OutcomeOf(spec, s, r).EndedCompleted?
    requires Or(r.finalMessage, s.lastMessageText).Some?
    requires spec.parse(OutcomeOf(spec, s, r).finalText) == Some(answer)
    requires CodexExec.Valid(CodexExec.SanitizeRoot(schema), answer, means)
    requires || (SchemaSoundness.StripSafe(schema, means) && !CodexExec.Lowers(schema))
             || AnswersForABranch(schema, answer, means)
    ensures var body := OutcomeOf(spec, s, r).structuredOutput;
            body.Some? && CodexExec.Valid(schema, body.value, means) && CodexExec.NullFree(body.value)
  {
    if AnswersForABranch(schema, answer, means) {
      AnswerIsSound(schema, answer, means);
    } else {
      SchemaSoundness.RewriteIsSound(schema, answer, means);
    }
    SchemaSoundness.StripIsNullFree(answer);
  }

  // ----- foreign messages, seen from the session -----

  /** The normalizer with the record of what it has said. */
  datatype NormLog = NormLog(norm: NormState, said: seq<EventKind>)

  /** A frame that can only be passed through. */
  predicate IsInertFrame(frame: Frame) {
    || frame.Foreign?
    || (frame.Native? && !ClaimsTerminal(frame.record) && StringAt(Some(frame.record), "method").None?)
  }

  function PassedThrough(frame: Frame): EventKind {
    if frame.Native? && Field(Some(frame.record), "rennet") != Some(Str("foreign")) then Passthrough("unknown")
    else Passthrough("foreign")
  }

  /** A response surfaced as foreign stays inert in the session exactly when it does not carry the adapter's
      terminal tag; with the tag it ends the session. */
  lemma ForeignResponseInertIffUnclaimed(spec: TurnSpec, s: NormState, m: Record)
    requires IsResponse(m)
    ensures Translate(spec, s, Native(m)) == Translation(s, 0, [PassedThrough(Native(m))]) <==> !ClaimsTerminal(m)
    ensures ClaimsTerminal(m) ==> Settles(Translate(spec, s, Native(m)).kinds)
  {
    TranslationShape(spec, s, Native(m));
  }

  ghost function Says(spec: TurnSpec): (NormLog, Frame) -> seq<EventKind> {
    (l: NormLog, frame: Frame) => Translate(spec, l.norm, frame).kinds
  }

  ghost function Normalizes(spec: TurnSpec): (NormLog, Frame) -> NormLog {
    (l: NormLog, frame: Frame) =>
      NormLog(Translate(spec, l.norm, frame).next, l.said + Translate(spec, l.norm, frame).kinds)
  }

  function WithSaid(l: NormLog, said: seq<EventKind>): NormLog { l.(said := said) }

  function InertHere(l: NormLog, frame: Frame): bool { IsInertFrame(frame) }

  lemma NormalizerLogs(spec: TurnSpec)
    ensures Machine.Logs(Normalizes(spec), Says(spec), WithSaid)
    ensures Machine.Surfaces(Normalizes(spec), Says(spec), WithSaid, InertHere, PassedThrough)
  {}

  lemma {:induction false} NormalizesAll(spec: TurnSpec, l: NormLog, frames: seq<Frame>)
    ensures Machine.Run(Normalizes(spec), l, frames) ==
            NormLog(NormAfter(spec, l.norm, frames), l.said + TranslateAll(spec, l.norm, frames))
    decreases frames
  {
    if frames == [] {
      assert l.said + [] == l.said;
    } else {
      var t := Translate(spec, l.norm, frames[0]);
      NormalizesAll(spec, NormLog(t.next, l.said + t.kinds), frames[1..]);
      assert (l.said + t.kinds) + TranslateAll(spec, t.next, frames[1..]) ==
             l.said + (t.kinds + TranslateAll(spec, t.next, frames[1..]));
    }
  }

  ghost predicate NoiseIsInert(trace: seq<Machine.Tagged<Frame>>) {
    forall i :: 0 <= i < |trace| && trace[i].noise ==> IsInertFrame(trace[i].item)
  }

  lemma {:induction false} InertTrace(spec: TurnSpec, l: NormLog, trace: seq<Machine.Tagged<Frame>>)
    requires NoiseIsInert(trace)
    ensures Machine.OnlyInert(Normalizes(spec), InertHere, l, trace)
    decreases trace
  {
    if trace != [] { InertTrace(spec, Normalizes(spec)(l, trace[0].item), trace[1..]); }
  }

  /** An inserted message the runner finds foreign; if it is a response, it moreover does not carry the adapter's
      terminal tag. */
  predicate HarmlessInput(s: State, input: Input) {
    NonInterference.ForeignInput(s, input) && (IsNotification(input.record) || !ClaimsTerminal(input.record))
  }

  lemma {:induction false} NoiseFramesAreInert(s: State, schedule: seq<Machine.Tagged<Input>>)
    requires Machine.OnlyInert(Step, HarmlessInput, s, schedule)
    ensures Machine.OnlyInert(Step, NonInterference.ForeignInput, s, schedule)
    ensures NoiseIsInert(Machine.Trace(Step, NonInterference.Emitted, s, schedule))
    decreases schedule
  {
    if schedule != [] {
      var input := schedule[0].item;
      var frames := NonInterference.Emitted(s, input);
      NoiseFramesAreInert(Step(s, input), schedule[1..]);
      if schedule[0].noise {
        NonInterference.InertIffForeign(s, input.record);
        assert frames == [NonInterference.Surfaced(input.record)];
      }
      TaggedAreInert(frames, schedule[0].noise,
                     Machine.Trace(Step, NonInterference.Emitted, Step(s, input), schedule[1..]));
    }
  }

  lemma TaggedAreInert(frames: seq<Frame>, noise: bool, later: seq<Machine.Tagged<Frame>>)
    requires noise ==> forall i :: 0 <= i < |frames| ==> IsInertFrame(frames[i])
    requires NoiseIsInert(later)
    ensures NoiseIsInert(Machine.Tag(frames, noise) + later)
  {
    TagElements(frames, noise);
  }

  lemma {:induction false} TagElements<T>(items: seq<T>, noise: bool)
    ensures |Machine.Tag(items, noise)| == |items|
    ensures forall i :: 0 <= i < |items| ==> Machine.Tag(items, noise)[i] == Machine.Tagged(items[i], noise)
  {
    if items != [] { TagElements(items[1..], noise); }
  }

  /** Foreign messages inserted anywhere reach the normalizer only as passthroughs: what it says is what it says
      without them, interleaved with one passthrough per insertion, and it ends in the same state. */
  lemma SessionIsUndisturbed(spec: TurnSpec, preAborted: bool, schedule: seq<Machine.Tagged<Input>>)
    requires Machine.OnlyInert(Step, HarmlessInput, Initial(preAborted), schedule)
    ensures var noisy := Run(Initial(preAborted), Machine.Items(schedule)).yielded;
            var clean := Run(Initial(preAborted), Machine.Select(schedule, false)).yielded;
            var frames := Machine.Trace(Step, NonInterference.Emitted, Initial(preAborted), schedule);
            var said := Machine.Trace(Normalizes(spec), Says(spec), NormLog(FRESH, []), frames);
            && TranslateAll(spec, FRESH, noisy) == Machine.Items(said)
            && TranslateAll(spec, FRESH, clean) == Machine.Select(said, false)
            && Machine.Select(said, true) == Machine.Map(PassedThrough, Machine.Select(frames, true))
            && Machine.Select(frames, true) ==
               Machine.Map(NonInterference.SurfacedInput, Machine.Select(schedule, true))
            && NormAfter(spec, FRESH, noisy) == NormAfter(spec, FRESH, clean)
  {
    var start, log := Initial(preAborted), NormLog(FRESH, []);
    var frames := Machine.Trace(Step, NonInterference.Emitted, start, schedule);
    var said := Machine.Trace(Normalizes(spec), Says(spec), log, frames);
    NoiseFramesAreInert(start, schedule);
    NonInterference.ForeignMessagesDoNotInterfere(preAborted, schedule);
    NormalizerLogs(spec);
    InertTrace(spec, log, frames);
    Machine.TraceIsOutput(Normalizes(spec), Says(spec), WithSaid, log, [], frames);
    Machine.InsertionsAreErasable(Normalizes(spec), Says(spec), WithSaid, InertHere, PassedThrough, log, [], frames);
    Machine.InsertionsAreSurfaced(Normalizes(spec), Says(spec), WithSaid, InertHere, PassedThrough, log, frames);
    NormalizesAll(spec, log, Machine.Items(frames));
    NormalizesAll(spec, log, Machine.Select(frames, false));
    assert WithSaid(log, []) == log;
    assert [] + Machine.Items(said) == Machine.Items(said);
    assert [] + Machine.Select(said, false) == Machine.Select(said, false);
  }

  lemma {:induction false} InsertionsClaimNothing(trace: seq<Machine.Tagged<Frame>>)
    requires NoiseIsInert(trace) && Unclaimed(Machine.Select(trace, false))
    ensures Unclaimed(Machine.Items(trace))
    decreases trace
  {
    if trace != [] {
      var own, later := Machine.Select(trace, false), Machine.Select(trace[1..], false);
      forall i | 0 <= i < |later| ensures !(later[i].Native? && ClaimsTerminal(later[i].record)) {
        assert later[i] == own[if trace[0].noise then i else i + 1];
      }
      assert !trace[0].noise ==> own[0] == trace[0].item;
      InsertionsClaimNothing(trace[1..]);
      UnclaimedFirst(trace[0].item, Machine.Items(trace[1..]));
    }
  }

  lemma UnclaimedFirst(frame: Frame, later: seq<Frame>)
    requires !(frame.Native? && ClaimsTerminal(frame.record)) && Unclaimed(later)
    ensures Unclaimed([frame] + later)
  {}

  lemma {:induction false} MapElements<A, B>(f: A -> B, items: seq<A>)
    ensures |Machine.Map(f, items)| == |items|
    ensures forall i :: 0 <= i < |items| ==> Machine.Map(f, items)[i] == f(items[i])
  {
    if items != [] { MapElements(f, items[1..]); }
  }

  /** A last word that is not an insertion's is also the last of the words that are not. */
  lemma LastWordIsOwn(said: seq<Machine.Tagged<EventKind>>, inserted: seq<Frame>)
    requires Machine.Select(said, true) == Machine.Map(PassedThrough, inserted)
    requires var all := Machine.Items(said); all != [] && all[|all| - 1].SessionEnded?
    ensures var all, own := Machine.Items(said), Machine.Select(said, false);
            own != [] && own[|own| - 1] == all[|all| - 1]
  {
    Machine.LastItem(said);
    MapElements(PassedThrough, inserted);
  }

  /** What a finished turn's session says last: what the frames dictate, or that the buffer overflowed. */
  ghost predicate Settled(p: Pump, cfg: Config, frames: seq<Frame>)
    requires RunnerSafety.EndsInItsOnlyTerminal(frames)
  {
    && p.closed && EndsOnce(p.accepted)
    && p.accepted[|p.accepted| - 1].kind == SessionEnded(ReportedOutcome(cfg, frames, p.overflowTerminated))
  }

  /** Foreign messages inserted anywhere do not change how the session ends: pumped through with any interleaving
      of the consumer, the disturbed turn settles once, as the undisturbed turn dictates, unless the insertions
      filled the buffer to its ceiling. In particular two sessions that both stay below it, one disturbed and
      one not, end with the same last event. */
  lemma OutcomeIsUndisturbed(cfg: Config, preAborted: bool, schedule: seq<Machine.Tagged<Input>>,
                             noisyFeed: seq<PumpInput>, cleanFeed: seq<PumpInput>)
    requires Machine.OnlyInert(Step, HarmlessInput, Initial(preAborted), schedule)
    requires Run(Initial(preAborted), Machine.Select(schedule, false)).phase == Finished
    requires Unclaimed(Run(Initial(preAborted), Machine.Select(schedule, false)).yielded)
    requires IsFeed(noisyFeed) && FramesOf(noisyFeed) == Run(Initial(preAborted), Machine.Items(schedule)).yielded
    requires IsFeed(cleanFeed) &&
             FramesOf(cleanFeed) == Run(Initial(preAborted), Machine.Select(schedule, false)).yielded
    ensures var frames := FramesOf(cleanFeed);
            var noisy := PumpRun(cfg, STARTED, noisyFeed + [Ends]);
            var clean := PumpRun(cfg, STARTED, cleanFeed + [Ends]);
            && RunnerSafety.EndsInItsOnlyTerminal(frames)
            && Settled(noisy, cfg, frames) && Settled(clean, cfg, frames)
            && (noisy.overflowTerminated == clean.overflowTerminated ==>
                  noisy.accepted[|noisy.accepted| - 1].kind == clean.accepted[|clean.accepted| - 1].kind)
  {
    var start := Initial(preAborted);
    var frames := Machine.Trace(Step, NonInterference.Emitted, start, schedule);
    var said := Machine.Trace(Normalizes(cfg.spec), Says(cfg.spec), NormLog(FRESH, []), frames);
    NoiseFramesAreInert(start, schedule);
    NonInterference.ForeignMessagesDoNotInterfere(preAborted, schedule);
    InsertionsClaimNothing(frames);
    SessionReportsTurn(cfg, preAborted, Machine.Items(schedule), noisyFeed);
    SessionReportsTurn(cfg, preAborted, Machine.Select(schedule, false), cleanFeed);
    SessionIsUndisturbed(cfg.spec, preAborted, schedule);
    LastTranslated(cfg, FramesOf(noisyFeed), Machine.Items(said));
    LastTranslated(cfg, FramesOf(cleanFeed), Machine.Select(said, false));
    LastWordIsOwn(said, Machine.Select(frames, true));
  }

  // ----- a foreign response that carries the tag is not harmless -----

  const TAGGED: Record := map["id" := Num(99), "rennet" := Str("turn-result")]

  /** A turn whose child dies at once, and the same turn with one foreign response before. */
  function DyingTurn(exit: AppServerExit): seq<Input> { [StreamEnd, ChildExit(exit)] }

  lemma TaggedIsForeign()
    ensures NonInterference.ForeignInput(Initial(false), Message(TAGGED))
    ensures Step(Initial(false), Message(TAGGED)) == Yield(Initial(false), Native(TAGGED))
  {
    assert IsResponse(TAGGED) && NonInterference.IsForeign(Initial(false), TAGGED);
    NonInterference.InertIffForeign(Initial(false), TAGGED);
  }

  lemma DyingTurnYields(exit: AppServerExit, r: TurnResult)
    requires r == ExitResult(Initial(false), exit)
    ensures Run(Initial(false), DyingTurn(exit)).yielded == [Terminal(r)]
    ensures Run(Initial(false), [Message(TAGGED)] + DyingTurn(exit)).yielded == [Native(TAGGED), Terminal(r)]
  {
    var s := Initial(false);
    ChildDies(s, exit);
    TaggedIsForeign();
    ChildDies(Yield(s, Native(TAGGED)), exit);
    Machine.RunFirst(Step, s, Message(TAGGED), DyingTurn(exit));
  }

  lemma ChildDies(s: State, exit: AppServerExit)
    requires s.phase == Reading
    ensures Run(s, DyingTurn(exit)).yielded == s.yielded + [Terminal(ExitResult(s, exit))]
  {
    var s1 := Step(s, StreamEnd);
    Machine.RunIsChain(Step, [s, s1, Step(s1, ChildExit(exit))], DyingTurn(exit));
  }

  /** Nothing more is accepted once the session is settled: the rest of the stream only closes it. */
  lemma SettledKeepsAccepted(cfg: Config, p: Pump, frame: Frame)
    requires Inv(cfg, p) && !p.closed && p.ended && !p.overflowTerminated
    ensures var q := PumpRun(cfg, p, [Yields(frame), Ends]); q.closed && q.accepted == p.accepted
  {
    var q := PumpStep(cfg, p, Yields(frame));
    StepKeepsInv(cfg, p, Yields(frame));
    EndStep(cfg, q);
    assert [Yields(frame), Ends][1..] == [Ends];
  }

  /** What the session says last, if its buffer did not overflow, about a stream of frames read to its end. */
  ghost predicate SaysLast(cfg: Config, feed: seq<PumpInput>, outcome: SessionOutcome) {
    var p := PumpRun(cfg, STARTED, feed);
    p.accepted != [] && (!p.overflowTerminated ==> p.accepted[|p.accepted| - 1].kind == SessionEnded(outcome))
  }

  /** One foreign response that carries the tag turns a failed turn into a completed session: the contrast to
      messages that do not. */
  lemma ATaggedResponseChangesTheOutcome(cfg: Config, exit: AppServerExit)
    requires exit.spawnError.None? && !exit.aborted
    ensures NonInterference.ForeignInput(Initial(false), Message(TAGGED))
    ensures var noisy := Run(Initial(false), [Message(TAGGED)] + DyingTurn(exit)).yielded;
            |noisy| == 2 && SaysLast(cfg, [Yields(noisy[0]), Yields(noisy[1]), Ends], EndedCompleted("", None, None))
    ensures var clean := Run(Initial(false), DyingTurn(exit)).yielded;
            |clean| == 1 && clean[0].Terminal? && clean[0].result.error.Some? &&
            SaysLast(cfg, [Yields(clean[0]), Ends], EndedFailed(Mapped(clean[0].result.error.value)))
  {
    var r := ExitResult(Initial(false), exit);
    TaggedIsForeign();
    DyingTurnYields(exit, r);
    TaggedIsCompleted(cfg, Terminal(r));
    FailedIsFailed(cfg, r);
  }

  lemma TaggedIsCompleted(cfg: Config, later: Frame)
    ensures SaysLast(cfg, [Yields(Native(TAGGED)), Yields(later), Ends], EndedCompleted("", None, None))
  {
    var feed := [Yields(Native(TAGGED)), Yields(later), Ends];
    var p := PumpStep(cfg, STARTED, feed[0]);
    var t := Translate(cfg.spec, FRESH, Native(TAGGED));
    StepKeepsInv(cfg, STARTED, feed[0]);
    StepLeavesOpen(cfg, STARTED, feed[0]);
    assert t.kinds == Settlement(EndedCompleted("", None, None));
    ContributionIsExact(cfg, STARTED, t);
    assert feed[1..] == [Yields(later), Ends];
    if p.overflowTerminated {
      OverflowSticks(cfg, p, feed[1..]);
      RunKeepsInv(cfg, p, feed[1..]);
    } else {
      assert Kinds(p.accepted)[0] == SessionEnded(EndedCompleted("", None, None));
      SettledKeepsAccepted(cfg, p, later);
    }
  }

  lemma FailedIsFailed(cfg: Config, r: TurnResult)
    requires r.status == Failed && r.error.Some?
    ensures SaysLast(cfg, [Yields(Terminal(r)), Ends], EndedFailed(Mapped(r.error.value)))
  {
    var feed, frames := [Yields(Terminal(r))], [Terminal(r)];
    assert feed[1..] == [] && FramesOf(feed) == frames;
    assert frames[..|frames| - 1] == [];
    StreamIsReported(cfg, STARTED, frames, feed);
    assert feed + [Ends] == [Yields(Terminal(r)), Ends];
  }
}
