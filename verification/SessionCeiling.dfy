/** When a session overflows: exactly if what is unread and what comes in do not fit both ceilings together. */
module SessionCeiling {
  import opened Json
  import opened CodexAppServer
  import opened CodexNormalizer
  import opened CodexSession
  import opened EventQueue

  /** The retained size is that of the events nobody took. */
  ghost predicate Weighed(cfg: Config, p: Pump) {
    p.taken <= |p.accepted| && p.bytes == Total(cfg.sizeOf, p.accepted[p.taken..])
  }

  lemma AcceptWeighs(cfg: Config, p: Pump, event: CodexNormalizer.Event)
    requires Weighed(cfg, p)
    ensures Weighed(cfg, Accept(cfg, p, event))
    ensures Unread(Accept(cfg, p, event)) == Unread(p) + [event]
  {
    var unread := p.accepted[p.taken..];
    assert (p.accepted + [event])[p.taken..] == unread + [event];
    TotalPush(cfg.sizeOf, unread, event);
  }

  lemma SettleWeighs(cfg: Config, p: Pump, error: HarnessError)
    requires Weighed(cfg, p)
    ensures Weighed(cfg, SettleFailed(cfg, p, error))
  {
    if !p.ended {
      var announced := CodexNormalizer.Event(p.counter + 1, ErrorEvent(error));
      AcceptWeighs(cfg, p, announced);
      AcceptWeighs(cfg, Accept(cfg, p, announced),
                   CodexNormalizer.Event(p.counter + 2, SessionEnded(EndedFailed(error))));
    }
  }

  lemma EnqueueWeighs(cfg: Config, p: Pump, event: CodexNormalizer.Event)
    requires Weighed(cfg, p)
    ensures Weighed(cfg, Enqueue(cfg, p, event))
  {
    AcceptWeighs(cfg, p, event);
    SettleWeighs(cfg, p.(overflowTerminated := true), BufferCeiling);
  }

  lemma {:induction false} EnqueueAllWeighs(cfg: Config, p: Pump, events: seq<CodexNormalizer.Event>)
    requires Weighed(cfg, p)
    ensures Weighed(cfg, EnqueueAll(cfg, p, events))
    decreases events
  {
    if events != [] {
      EnqueueWeighs(cfg, p, events[0]);
      EnqueueAllWeighs(cfg, Enqueue(cfg, p, events[0]), events[1..]);
    }
  }

  lemma TakeWeighs(cfg: Config, p: Pump)
    requires Weighed(cfg, p)
    ensures Weighed(cfg, PumpStep(cfg, p, Takes))
  {
    if p.taken < |p.accepted| {
      TotalPop(cfg.sizeOf, p.accepted[p.taken..]);
      assert p.accepted[p.taken..][1..] == p.accepted[p.taken + 1..];
    }
  }

  lemma FrameWeighs(cfg: Config, p: Pump, t: Translation)
    requires Weighed(cfg, p)
    ensures Weighed(cfg, Contribute(cfg, p, t))
  {
    EnqueueAllWeighs(cfg, p.(norm := t.next, counter := p.counter + t.skipped + |t.kinds|),
                     Stamp(p.counter + t.skipped, t.kinds));
  }

  lemma EndWeighs(cfg: Config, p: Pump)
    requires Weighed(cfg, p)
    ensures Weighed(cfg, OnEnd(cfg, p))
  {
    var kinds := if p.ended then [] else Finalization(p.norm);
    EnqueueAllWeighs(cfg, p.(counter := p.counter + |kinds|), Stamp(p.counter, kinds));
  }

  lemma ThrowWeighs(cfg: Config, p: Pump, message: string)
    requires Weighed(cfg, p)
    ensures Weighed(cfg, OnThrow(cfg, p, message))
  {
    AcceptWeighs(cfg, p, CodexNormalizer.Event(p.counter + 1, Passthrough(TEARDOWN)));
    SettleWeighs(cfg, p, TransportThrew(message));
  }

  lemma StepWeighs(cfg: Config, p: Pump, input: PumpInput)
    requires Weighed(cfg, p)
    ensures Weighed(cfg, PumpStep(cfg, p, input))
  {
    match input
    case Yields(frame) => FrameWeighs(cfg, p, Translate(cfg.spec, p.norm, frame));
    case Ends => EndWeighs(cfg, p);
    case Throws(message) => ThrowWeighs(cfg, p, message);
    case Takes => TakeWeighs(cfg, p);
  }

  lemma {:induction false} RunWeighs(cfg: Config, p: Pump, inputs: seq<PumpInput>)
    requires Weighed(cfg, p)
    ensures Weighed(cfg, PumpRun(cfg, p, inputs))
    decreases inputs
  {
    if inputs != [] {
      StepWeighs(cfg, p, inputs[0]);
      RunWeighs(cfg, PumpStep(cfg, p, inputs[0]), inputs[1..]);
    }
  }

  /** These events do not fit beside the unread ones. */
  ghost predicate TooMuch(cfg: Config, unread: seq<CodexNormalizer.Event>, events: seq<CodexNormalizer.Event>) {
    events != [] && (|unread| + |events| > cfg.maxEvents || Total(cfg.sizeOf, unread + events) > cfg.maxBytes)
  }

  lemma {:induction false} TotalGrows<T>(sizeOf: T -> nat, a: seq<T>, b: seq<T>)
    ensures Total(sizeOf, a + b) >= Total(sizeOf, a)
    decreases |b|
  {
    if b == [] {
      assert a + b == a;
    } else {
      assert (a + b)[..|a + b| - 1] == a + b[..|b| - 1];
      TotalGrows(sizeOf, a, b[..|b| - 1]);
    }
  }

  /** Events the session may end with only in last place. */
  ghost predicate EndsLast(events: seq<CodexNormalizer.Event>) {
    forall i :: 0 <= i < |events| - 1 ==> !events[i].kind.SessionEnded?
  }

  lemma {:induction false} BatchOverflowsIff(cfg: Config, p: Pump, events: seq<CodexNormalizer.Event>)
    requires Weighed(cfg, p) && !p.ended && !p.overflowTerminated && EndsLast(events)
    ensures EnqueueAll(cfg, p, events).overflowTerminated <==> TooMuch(cfg, Unread(p), events)
    decreases events
  {
    if events != [] {
      var event, rest := events[0], events[1..];
      assert Unread(p) + events == (Unread(p) + [event]) + rest;
      TotalPush(cfg.sizeOf, Unread(p), event);
      TotalGrows(cfg.sizeOf, Unread(p) + [event], rest);
      if HasRoom(cfg, p, event) {
        AcceptWeighs(cfg, p, event);
        var q := Enqueue(cfg, p, event);
        if rest != [] { BatchOverflowsIff(cfg, q, rest); }
      }
    }
  }

  lemma StampedEndLast(counter: nat, kinds: seq<EventKind>)
    requires forall i :: 0 <= i < |kinds| - 1 ==> !kinds[i].SessionEnded?
    ensures EndsLast(Stamp(counter, kinds))
  {
  }

  lemma ContributionOverflowsIff(cfg: Config, p: Pump, t: Translation)
    requires Weighed(cfg, p) && !p.ended && !p.overflowTerminated
    requires forall i :: 0 <= i < |t.kinds| - 1 ==> !t.kinds[i].SessionEnded?
    ensures Contribute(cfg, p, t).overflowTerminated <==>
            TooMuch(cfg, Unread(p), Stamp(p.counter + t.skipped, t.kinds))
  {
    StampedEndLast(p.counter + t.skipped, t.kinds);
    BatchOverflowsIff(cfg, p.(norm := t.next, counter := p.counter + t.skipped + |t.kinds|),
                      Stamp(p.counter + t.skipped, t.kinds));
  }

  lemma TranslationEndsLast(spec: TurnSpec, s: NormState, frame: Frame)
    ensures var t := Translate(spec, s, frame); forall i :: 0 <= i < |t.kinds| - 1 ==> !t.kinds[i].SessionEnded?
  {
    TranslationShape(spec, s, frame);
  }

  lemma OpenRun(cfg: Config, inputs: seq<PumpInput>, p: Pump)
    requires p == PumpRun(cfg, STARTED, inputs) && !p.ended
    ensures Weighed(cfg, p) && !p.closed && !p.overflowTerminated
  {
    RunKeepsInv(cfg, STARTED, inputs);
    RunWeighs(cfg, STARTED, inputs);
  }

  lemma FrameContributes(cfg: Config, p: Pump, frame: Frame, t: Translation)
    requires t == Translate(cfg.spec, p.norm, frame) && !p.closed && !p.overflowTerminated
    ensures PumpStep(cfg, p, Yields(frame)) == Contribute(cfg, p, t)
  {
  }

  /** Over every run, whatever the consumer took: a frame makes an open session overflow exactly if what is said of it
      does not fit, beside what is unread, into the ceilings on events and on bytes. */
  lemma OverflowsIff(cfg: Config, inputs: seq<PumpInput>, frame: Frame, p: Pump, t: Translation)
    requires p == PumpRun(cfg, STARTED, inputs) && !p.ended
    requires t == Translate(cfg.spec, p.norm, frame)
    ensures PumpStep(cfg, p, Yields(frame)).overflowTerminated <==>
            TooMuch(cfg, Unread(p), Stamp(p.counter + t.skipped, t.kinds))
  {
    OpenRun(cfg, inputs, p);
    TranslationEndsLast(cfg.spec, p.norm, frame);
    FrameContributes(cfg, p, frame, t);
    ContributionOverflowsIff(cfg, p, t);
  }

  /** And so does the end of the stream: the two events of its failure have to fit. */
  lemma EndOverflowsIff(cfg: Config, inputs: seq<PumpInput>)
    requires !PumpRun(cfg, STARTED, inputs).ended
    ensures var p := PumpRun(cfg, STARTED, inputs);
            PumpStep(cfg, p, Ends).overflowTerminated <==>
            TooMuch(cfg, Unread(p), Stamp(p.counter, [ErrorEvent(NoTerminalFrame),
                                                      SessionEnded(EndedFailed(NoTerminalFrame))]))
  {
    var p := PumpRun(cfg, STARTED, inputs);
    OpenRun(cfg, inputs, p);
    RunKeepsInv(cfg, STARTED, inputs);
    ContributionOverflowsIff(cfg, p, Translation(p.norm, 0, Finalization(p.norm)));
  }
}
