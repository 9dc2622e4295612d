/** Why a session ended as it did: for the first thing that could end it, or because its buffer overflowed. */
module SessionLaws {
  import opened Json
  import opened CodexAppServer
  import opened CodexNormalizer
  import opened CodexSession
  import opened CodexEndToEnd
  import opened RunnerLaws
  import Laws = NormalizerLaws

  /** What can end a session: a terminal frame, or the end or failure of the transport. */
  predicate IsEnding(input: PumpInput) {
    match input
    case Yields(frame) => IsTerminal(frame)
    case Ends => true
    case Throws(_) => true
    case Takes => false
  }

  ghost predicate IsQuiet(inputs: seq<PumpInput>) { forall k :: 0 <= k < |inputs| ==> !IsEnding(inputs[k]) }

  /** How the session ends for this input, after frames none of which was terminal: as the terminal frame settles
      it, failed for want of one, or failed with what the transport threw. */
  ghost predicate EndsFor(spec: TurnSpec, frames: seq<Frame>, input: PumpInput, outcome: SessionOutcome) {
    match input
    case Yields(frame) =>
      IsTerminal(frame) && exists r :: Laws.Reads(frame, r) && Laws.Settles(spec, frames, r, outcome)
    case Ends => outcome == EndedFailed(NoTerminalFrame)
    case Throws(message) => outcome == EndedFailed(TransportThrew(message))
    case Takes => false
  }

  /** Input `k` is the first that could end the session, and it ends it so. */
  ghost predicate IsCause(spec: TurnSpec, inputs: seq<PumpInput>, k: nat, outcome: SessionOutcome) {
    k < |inputs| && IsQuiet(inputs[..k]) && EndsFor(spec, FramesOf(inputs[..k]), inputs[k], outcome)
  }

  ghost predicate HasCause(spec: TurnSpec, inputs: seq<PumpInput>, accepted: seq<Event>) {
    exists k: nat, outcome :: IsCause(spec, inputs, k, outcome) && Reports(accepted, outcome)
  }

  ghost predicate Explained(cfg: Config, inputs: seq<PumpInput>, p: Pump) {
    && Inv(cfg, p)
    && if p.overflowTerminated then p.ended
       else if p.ended then HasCause(cfg.spec, inputs, p.accepted)
       else !p.closed && IsQuiet(inputs) && p.norm == NormAfter(cfg.spec, FRESH, FramesOf(inputs))
  }

  lemma CauseStays(spec: TurnSpec, inputs: seq<PumpInput>, k: nat, outcome: SessionOutcome, input: PumpInput)
    requires IsCause(spec, inputs, k, outcome)
    ensures IsCause(spec, inputs + [input], k, outcome)
  {
    assert (inputs + [input])[..k] == inputs[..k] && (inputs + [input])[k] == inputs[k];
  }

  lemma CauseNow(spec: TurnSpec, inputs: seq<PumpInput>, input: PumpInput, outcome: SessionOutcome)
    requires IsQuiet(inputs) && EndsFor(spec, FramesOf(inputs), input, outcome)
    ensures IsCause(spec, inputs + [input], |inputs|, outcome)
  {
    assert (inputs + [input])[..|inputs|] == inputs;
  }

  lemma Reassociate(a: seq<Frame>, b: seq<Frame>, c: seq<Frame>)
    ensures (a + b) + c == a + (b + c)
  {}

  lemma {:induction false} FramesGrow(inputs: seq<PumpInput>, input: PumpInput)
    ensures FramesOf(inputs + [input]) == FramesOf(inputs) + FramesOf([input])
    ensures FramesOf([input]) == if input.Yields? then [input.frame] else []
  {
    assert [input][1..] == [];
    if inputs == [] {
      assert [] + [input] == [input];
    } else {
      assert (inputs + [input])[1..] == inputs[1..] + [input];
      FramesGrow(inputs[1..], input);
      Reassociate(if inputs[0].Yields? then [inputs[0].frame] else [], FramesOf(inputs[1..]), FramesOf([input]));
    }
  }

  lemma {:induction false} NormGrows(spec: TurnSpec, s: NormState, frames: seq<Frame>, frame: Frame)
    ensures NormAfter(spec, s, frames + [frame]) == Translate(spec, NormAfter(spec, s, frames), frame).next
    decreases frames
  {
    if frames == [] {
      assert [] + [frame] == [frame] && [frame][1..] == [];
    } else {
      assert (frames + [frame])[1..] == frames[1..] + [frame];
      NormGrows(spec, Translate(spec, s, frames[0]).next, frames[1..], frame);
    }
  }

  // ----- a settled session stays as it was reported -----

  lemma EvidenceKeepsReport(accepted: seq<Event>, evidence: Event, outcome: SessionOutcome)
    requires EndsOnce(accepted) && evidence.kind == Passthrough(TEARDOWN) && Reports(accepted, outcome)
    ensures Reports(accepted + [evidence], outcome)
  {
    if |accepted| >= 2 { assert accepted[..|accepted| - 1][|accepted| - 2] == accepted[|accepted| - 2]; }
  }

  /** Frames and the end of the stream add nothing to a settled session. */
  lemma SettledAddsNothing(cfg: Config, p: Pump, input: PumpInput)
    requires p.ended && !input.Throws?
    ensures var q := PumpStep(cfg, p, input);
            q.ended && q.overflowTerminated == p.overflowTerminated && q.accepted == p.accepted
  {
    if !p.closed && input.Ends? { EndedIsJustClosed(cfg, p); }
  }

  lemma SettledStep(cfg: Config, p: Pump, input: PumpInput)
    requires p.ended && (!p.closed ==> EndsOnce(p.accepted))
    ensures var q := PumpStep(cfg, p, input);
            && q.ended && q.overflowTerminated == p.overflowTerminated
            && forall outcome :: Reports(p.accepted, outcome) ==> Reports(q.accepted, outcome)
  {
    if input.Throws? && !p.closed {
      forall outcome | Reports(p.accepted, outcome)
        ensures Reports(PumpStep(cfg, p, input).accepted, outcome)
      {
        EvidenceKeepsReport(p.accepted, Event(p.counter + 1, Passthrough(TEARDOWN)), outcome);
      }
    } else if !input.Throws? {
      SettledAddsNothing(cfg, p, input);
    }
  }

  lemma SettledIsExplained(cfg: Config, inputs: seq<PumpInput>, p: Pump, input: PumpInput)
    requires Explained(cfg, inputs, p) && p.ended
    ensures Explained(cfg, inputs + [input], PumpStep(cfg, p, input))
  {
    StepKeepsInv(cfg, p, input);
    SettledStep(cfg, p, input);
    if !p.overflowTerminated {
      var k: nat, outcome :| IsCause(cfg.spec, inputs, k, outcome) && Reports(p.accepted, outcome);
      CauseStays(cfg.spec, inputs, k, outcome, input);
    }
  }

  // ----- an open session is settled by the first ending -----

  lemma TerminalEnds(spec: TurnSpec, frames: seq<Frame>, frame: Frame) returns (outcome: SessionOutcome)
    requires IsTerminal(frame)
    ensures Translate(spec, NormAfter(spec, FRESH, frames), frame).kinds == Settlement(outcome)
    ensures EndsFor(spec, frames, Yields(frame), outcome)
  {
    var s := NormAfter(spec, FRESH, frames);
    var r := if frame.Terminal? then frame.result else ReadResult(frame.record);
    outcome := OutcomeOf(spec, s, r);
    Laws.NormalizerRemembers(spec, frames);
    Laws.OutcomeSettles(spec, frames, s, r);
    if frame.Native? { Laws.ClaimIsRead(frame.record); }
    assert Laws.Reads(frame, r) && Laws.Settles(spec, frames, r, outcome);
  }

  lemma SettlementIsReported(accepted: seq<Event>, kinds: seq<EventKind>, outcome: SessionOutcome)
    requires kinds == Settlement(outcome) && |accepted| >= |kinds|
    requires Kinds(accepted)[|accepted| - |kinds|..] == kinds
    ensures Reports(accepted, outcome)
  {
    assert Kinds(accepted)[|accepted| - 1] == kinds[|kinds| - 1];
  }

  lemma YieldIsExplained(cfg: Config, inputs: seq<PumpInput>, p: Pump, frame: Frame)
    requires Explained(cfg, inputs, p) && !p.ended
    ensures Explained(cfg, inputs + [Yields(frame)], PumpStep(cfg, p, Yields(frame)))
  {
    var t := Translate(cfg.spec, p.norm, frame);
    var q := PumpStep(cfg, p, Yields(frame));
    StepKeepsInv(cfg, p, Yields(frame));
    TranslationShape(cfg.spec, p.norm, frame);
    ContributionIsExact(cfg, p, t);
    FramesGrow(inputs, Yields(frame));
    NormGrows(cfg.spec, FRESH, FramesOf(inputs), frame);
    if !q.overflowTerminated && IsTerminal(frame) {
      var outcome := TerminalEnds(cfg.spec, FramesOf(inputs), frame);
      SettlementIsReported(q.accepted, t.kinds, outcome);
      CauseNow(cfg.spec, inputs, Yields(frame), outcome);
    }
  }

  /** An open session that is ended without a terminal frame fails for want of one. */
  lemma EndSettles(cfg: Config, p: Pump) returns (r: Pump)
    requires Inv(cfg, p) && !p.ended && !p.closed
    ensures PumpStep(cfg, p, Ends) == r.(closed := true) && r.ended
    ensures !r.overflowTerminated ==> Reports(r.accepted, EndedFailed(NoTerminalFrame))
  {
    var kinds := Settlement(EndedFailed(NoTerminalFrame));
    var counted := p.(counter := p.counter + |kinds|);
    r := EnqueueAll(cfg, counted, Stamp(p.counter, kinds));
    CountingIsOrderly(cfg, p, counted);
    NumberedKeepsInv(cfg, p, 0, kinds, counted, r);
    if !r.overflowTerminated {
      var last := r.accepted[|r.accepted| - 1];
      assert last == Stamp(p.counter, kinds)[1];
    }
  }

  lemma EndIsExplained(cfg: Config, inputs: seq<PumpInput>, p: Pump)
    requires Explained(cfg, inputs, p) && !p.ended && !p.overflowTerminated
    ensures Explained(cfg, inputs + [Ends], PumpStep(cfg, p, Ends))
  {
    StepKeepsInv(cfg, p, Ends);
    var r := EndSettles(cfg, p);
    CauseNow(cfg.spec, inputs, Ends, EndedFailed(NoTerminalFrame));
  }

  lemma ThrowIsExplained(cfg: Config, inputs: seq<PumpInput>, p: Pump, message: string)
    requires Explained(cfg, inputs, p) && !p.ended
    ensures Explained(cfg, inputs + [Throws(message)], PumpStep(cfg, p, Throws(message)))
  {
    StepKeepsInv(cfg, p, Throws(message));
    CauseNow(cfg.spec, inputs, Throws(message), EndedFailed(TransportThrew(message)));
    var q := PumpStep(cfg, p, Throws(message));
    assert Reports(q.accepted, EndedFailed(TransportThrew(message)));
  }

  lemma TakeIsExplained(cfg: Config, inputs: seq<PumpInput>, p: Pump)
    requires Explained(cfg, inputs, p) && !p.ended
    ensures Explained(cfg, inputs + [Takes], PumpStep(cfg, p, Takes))
  {
    StepKeepsInv(cfg, p, Takes);
    FramesGrow(inputs, Takes);
    assert FramesOf(inputs) + [] == FramesOf(inputs);
  }

  lemma StepIsExplained(cfg: Config, inputs: seq<PumpInput>, p: Pump, input: PumpInput)
    requires Explained(cfg, inputs, p)
    ensures Explained(cfg, inputs + [input], PumpStep(cfg, p, input))
  {
    if p.ended {
      SettledIsExplained(cfg, inputs, p, input);
    } else {
      match input
      case Yields(frame) => YieldIsExplained(cfg, inputs, p, frame);
      case Ends => EndIsExplained(cfg, inputs, p);
      case Throws(message) => ThrowIsExplained(cfg, inputs, p, message);
      case Takes => TakeIsExplained(cfg, inputs, p);
    }
  }

  lemma OneByOne(past: seq<PumpInput>, inputs: seq<PumpInput>)
    requires inputs != []
    ensures past + [inputs[0]] + inputs[1..] == past + inputs
  {}

  lemma {:induction false} RunIsExplained(cfg: Config, past: seq<PumpInput>, p: Pump, inputs: seq<PumpInput>)
    requires Explained(cfg, past, p)
    ensures Explained(cfg, past + inputs, PumpRun(cfg, p, inputs))
    decreases inputs
  {
    if inputs == [] {
      assert past + inputs == past;
    } else {
      StepIsExplained(cfg, past, p, inputs[0]);
      RunIsExplained(cfg, past + [inputs[0]], PumpStep(cfg, p, inputs[0]), inputs[1..]);
      OneByOne(past, inputs);
    }
  }

  /** Over every run, at every ceiling: a session that was reported ended was ended by its buffer's overflow, or by
      the first thing that could end it, and as that says; and one that met no such thing is open. */
  lemma SessionEndsForItsFirstCause(cfg: Config, inputs: seq<PumpInput>)
    ensures var p := PumpRun(cfg, STARTED, inputs);
            if p.overflowTerminated then Reports(p.accepted, EndedFailed(BufferCeiling))
            else if p.ended then HasCause(cfg.spec, inputs, p.accepted)
            else !p.closed && IsQuiet(inputs) && NoneEnded(p.accepted)
  {
    RunIsExplained(cfg, [], STARTED, inputs);
    assert [] + inputs == inputs;
  }

  /** What is reported is reported once: no two outcomes. */
  lemma OneReport(events: seq<Event>, a: SessionOutcome, b: SessionOutcome)
    requires EndsOnce(events) || EndsOnceThenTeardown(events)
    requires Reports(events, a) && Reports(events, b)
    ensures a == b
  {
    if EndsOnceThenTeardown(events) { assert events[..|events| - 1][|events| - 2] == events[|events| - 2]; }
    if EndsOnce(events) && |events| >= 2 { assert events[..|events| - 1][|events| - 2] == events[|events| - 2]; }
  }

  /** The first ending of a stream that has had none is the one that comes. */
  lemma FirstEnding(spec: TurnSpec, feed: seq<PumpInput>, end: PumpInput, k: nat, outcome: SessionOutcome)
    requires IsQuiet(feed) && IsCause(spec, feed + [end], k, outcome)
    ensures EndsFor(spec, FramesOf(feed), end, outcome)
  {
    var inputs := feed + [end];
    assert IsEnding(inputs[k]);
    assert forall i :: 0 <= i < |feed| ==> inputs[i] == feed[i];
    assert k == |feed| && inputs[..k] == feed;
  }

  /** A stream that ends, or fails, before any terminal frame: the session failed, and says why. */
  lemma AnUnfinishedStreamFails(cfg: Config, feed: seq<PumpInput>, end: PumpInput)
    requires IsQuiet(feed) && (end.Ends? || end.Throws?)
    ensures var p := PumpRun(cfg, STARTED, feed + [end]);
            && p.closed
            && Reports(p.accepted, EndedFailed(if p.overflowTerminated then BufferCeiling
                                               else if end.Ends? then NoTerminalFrame
                                               else TransportThrew(end.message)))
  {
    var inputs := feed + [end];
    var p := PumpRun(cfg, STARTED, inputs);
    SessionEndsForItsFirstCause(cfg, inputs);
    assert inputs[|feed|] == end;
    FinishingCloses(cfg, STARTED, inputs);
    RunKeepsInv(cfg, STARTED, inputs);
    if !p.overflowTerminated {
      var k: nat, outcome :| IsCause(cfg.spec, inputs, k, outcome) && Reports(p.accepted, outcome);
      FirstEnding(cfg.spec, feed, end, k, outcome);
    }
  }

  /** Input `k` is the first that could end the session, a terminal frame that says its turn completed. */
  ghost predicate SaysCompleted(spec: TurnSpec, inputs: seq<PumpInput>, k: nat, outcome: SessionOutcome) {
    && k < |inputs| && inputs[k].Yields? && IsTerminal(inputs[k].frame) && IsQuiet(inputs[..k])
    && exists r :: && Laws.Reads(inputs[k].frame, r) && r.status == Completed
                   && Laws.Settles(spec, FramesOf(inputs[..k]), r, outcome)
  }

  lemma CauseSaysCompleted(spec: TurnSpec, inputs: seq<PumpInput>, k: nat, outcome: SessionOutcome)
    requires IsCause(spec, inputs, k, outcome) && outcome.EndedCompleted?
    ensures SaysCompleted(spec, inputs, k, outcome)
  {
    var r :| Laws.Reads(inputs[k].frame, r) && Laws.Settles(spec, FramesOf(inputs[..k]), r, outcome);
  }

  /** A session is reported completed only if the first thing that could end it was a terminal frame that said its
      turn was completed. */
  lemma CompletedWasSaid(cfg: Config, inputs: seq<PumpInput>, outcome: SessionOutcome)
    requires Reports(PumpRun(cfg, STARTED, inputs).accepted, outcome) && outcome.EndedCompleted?
    ensures exists k: nat :: SaysCompleted(cfg.spec, inputs, k, outcome)
  {
    var p := PumpRun(cfg, STARTED, inputs);
    SessionEndsForItsFirstCause(cfg, inputs);
    ReportedOnce(cfg, inputs);
    if p.overflowTerminated {
      OneReport(p.accepted, outcome, EndedFailed(BufferCeiling));
    } else {
      var k: nat, other :| IsCause(cfg.spec, inputs, k, other) && Reports(p.accepted, other);
      OneReport(p.accepted, outcome, other);
      CauseSaysCompleted(cfg.spec, inputs, k, outcome);
    }
  }

  lemma ReportedOnce(cfg: Config, inputs: seq<PumpInput>)
    ensures var p := PumpRun(cfg, STARTED, inputs);
            (exists outcome :: Reports(p.accepted, outcome)) ==>
              p.ended && (EndsOnce(p.accepted) || EndsOnceThenTeardown(p.accepted))
  {
    RunKeepsInv(cfg, STARTED, inputs);
    var p := PumpRun(cfg, STARTED, inputs);
    if outcome :| Reports(p.accepted, outcome) { ReportNeedsEnd(cfg, p, outcome); }
  }

  lemma ReportNeedsEnd(cfg: Config, p: Pump, outcome: SessionOutcome)
    requires Inv(cfg, p) && Reports(p.accepted, outcome)
    ensures p.ended && (EndsOnce(p.accepted) || EndsOnceThenTeardown(p.accepted))
  {}

  /** Once a session has ended, the end of the transport adds nothing; its failure adds one event, which says so. */
  lemma TeardownIsEvidence(cfg: Config, inputs: seq<PumpInput>, message: string)
    requires var p := PumpRun(cfg, STARTED, inputs); p.ended && !p.closed
    ensures var p := PumpRun(cfg, STARTED, inputs);
            && PumpStep(cfg, p, Ends).accepted == p.accepted && PumpStep(cfg, p, Ends).closed
            && PumpStep(cfg, p, Throws(message)).closed
            && exists event: Event :: event.kind == Passthrough("transport-teardown-error")
                                      && PumpStep(cfg, p, Throws(message)).accepted == p.accepted + [event]
  {
    var p := PumpRun(cfg, STARTED, inputs);
    EndedIsJustClosed(cfg, p);
    var event := Event(p.counter + 1, Passthrough(TEARDOWN));
    assert PumpStep(cfg, p, Throws(message)).accepted == p.accepted + [event];
  }
}
