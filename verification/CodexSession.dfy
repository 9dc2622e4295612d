/** The pump of `codex-adapter.ts`: transport frames are normalized and queued until one settlement; the
    consumer takes events at its own pace. `PumpStep` is the specification; the class drives the real queue. */
module CodexSession {
  import opened Json
  import opened CodexAppServer
  import opened CodexNormalizer
  import EventQueue

  const TEARDOWN := "transport-teardown-error"

  datatype Config = Config(spec: TurnSpec, maxEvents: nat, maxBytes: nat, sizeOf: Event -> nat)

  /** `accepted` is everything ever queued, of which the consumer has taken the first `taken`; `bytes` is the
      retained size of the rest. */
  datatype Pump = Pump(norm: NormState, counter: nat, accepted: seq<Event>, taken: nat, bytes: int,
                       ended: bool, overflowTerminated: bool, closed: bool)

  /** The transport yields a frame, ends, or throws; the consumer takes one event. */
  datatype PumpInput = Yields(frame: Frame) | Ends | Throws(message: string) | Takes

  const STARTED := Pump(FRESH, 0, [], 0, 0, false, false, false)

  ghost function Unread(p: Pump): seq<Event> {
    if p.taken <= |p.accepted| then p.accepted[p.taken..] else []
  }

  function Accept(cfg: Config, p: Pump, event: Event): Pump {
    p.(accepted := p.accepted + [event], bytes := p.bytes + cfg.sizeOf(event))
  }

  function SettleFailed(cfg: Config, p: Pump, error: HarnessError): Pump {
    if p.ended then p else
    var announced := Accept(cfg, p, Event(p.counter + 1, ErrorEvent(error)));
    var settled := Accept(cfg, announced, Event(p.counter + 2, SessionEnded(EndedFailed(error))));
    settled.(ended := true, counter := p.counter + 2)
  }

  lemma SettledByTwo(cfg: Config, p: Pump, error: HarnessError)
    requires !p.ended
    ensures SettleFailed(cfg, p, error) ==
              Accept(cfg,
                     Accept(cfg, p.(ended := true, counter := p.counter + 2), Event(p.counter + 1, ErrorEvent(error))),
                     Event(p.counter + 2, SessionEnded(EndedFailed(error))))
  {}

  /** One more event stays within both ceilings. */
  predicate HasRoom(cfg: Config, p: Pump, event: Event) {
    |p.accepted| - p.taken + 1 <= cfg.maxEvents && p.bytes + cfg.sizeOf(event) <= cfg.maxBytes
  }

  ghost function Enqueue(cfg: Config, p: Pump, event: Event): Pump {
    if p.ended then p
    else if HasRoom(cfg, p, event) then
      Accept(cfg, p, event).(ended := event.kind.SessionEnded?)
    else
      SettleFailed(cfg, p.(overflowTerminated := true), BufferCeiling)
  }

  ghost function EnqueueAll(cfg: Config, p: Pump, events: seq<Event>): (q: Pump)
    ensures q.taken == p.taken && |q.accepted| >= |p.accepted| && q.closed == p.closed && q.norm == p.norm
    ensures p.ended ==> q == p
    decreases events
  {
    if events == [] then p
    else
      var q := Enqueue(cfg, p, events[0]);
      if q.overflowTerminated then q else EnqueueAll(cfg, q, events[1..])
  }

  /** Number a translation's events and enqueue them. */
  ghost function Contribute(cfg: Config, p: Pump, t: Translation): Pump {
    EnqueueAll(cfg, p.(norm := t.next, counter := p.counter + t.skipped + |t.kinds|),
               Stamp(p.counter + t.skipped, t.kinds))
  }

  ghost function OnFrame(cfg: Config, p: Pump, frame: Frame): Pump {
    Contribute(cfg, p, Translate(cfg.spec, p.norm, frame))
  }

  ghost function OnEnd(cfg: Config, p: Pump): Pump {
    var kinds := if p.ended then [] else Finalization(p.norm);
    EnqueueAll(cfg, p.(counter := p.counter + |kinds|), Stamp(p.counter, kinds)).(closed := true)
  }

  ghost function OnThrow(cfg: Config, p: Pump, message: string): Pump {
    if p.ended then
      Accept(cfg, p, Event(p.counter + 1, Passthrough(TEARDOWN))).(counter := p.counter + 1, closed := true)
    else SettleFailed(cfg, p, TransportThrew(message)).(closed := true)
  }

  /** One scheduling step of pump and consumer. After an overflow the pump only awaits the transport's end. */
  ghost function PumpStep(cfg: Config, p: Pump, input: PumpInput): (q: Pump)
    ensures p.taken <= |p.accepted| ==> q.taken <= |q.accepted|
  {
    match input
    case Yields(frame) => if p.closed || p.overflowTerminated then p else OnFrame(cfg, p, frame)
    case Ends => if p.closed then p else OnEnd(cfg, p)
    case Throws(message) => if p.closed then p else OnThrow(cfg, p, message)
    case Takes =>
      if p.taken < |p.accepted| then
        p.(taken := p.taken + 1, bytes := p.bytes - cfg.sizeOf(p.accepted[p.taken]))
      else p
  }

  ghost function PumpRun(cfg: Config, p: Pump, inputs: seq<PumpInput>): Pump
    decreases inputs
  {
    if inputs == [] then p else PumpRun(cfg, PumpStep(cfg, p, inputs[0]), inputs[1..])
  }

  lemma EndedIsJustClosed(cfg: Config, p: Pump)
    requires p.ended
    ensures OnEnd(cfg, p) == p.(closed := true)
  {
    assert Stamp(p.counter, []) == [];
  }

  // ----- exactly one settlement -----

  ghost predicate NoneEnded(events: seq<Event>) {
    forall i :: 0 <= i < |events| ==> !events[i].kind.SessionEnded?
  }

  /** One `session.ended`, in last place. */
  ghost predicate EndsOnce(events: seq<Event>) {
    events != [] && events[|events| - 1].kind.SessionEnded? && NoneEnded(events[..|events| - 1])
  }

  ghost predicate Increasing(events: seq<Event>) {
    forall i, j :: 0 <= i < j < |events| ==> events[i].seqNo < events[j].seqNo
  }

  ghost predicate Below(events: seq<Event>, counter: nat) {
    forall i :: 0 <= i < |events| ==> events[i].seqNo <= counter
  }

  /** Every failed end of session directly follows the error event that names the same error. */
  ghost predicate Announced(events: seq<Event>) {
    && (events != [] ==> !FailedEnd(events[0]))
    && forall i, j :: 0 <= i < j < |events| && j == i + 1 && FailedEnd(events[j]) ==>
         events[i].kind == ErrorEvent(events[j].kind.outcome.error)
  }

  predicate FailedEnd(event: Event) { event.kind.SessionEnded? && event.kind.outcome.EndedFailed? }

  /** The one event that may follow the settlement. */
  ghost predicate EndsOnceThenTeardown(events: seq<Event>) {
    |events| >= 2 && events[|events| - 1].kind == Passthrough(TEARDOWN) && EndsOnce(events[..|events| - 1])
  }

  /** The session was reported ended with this outcome, as the last event but for teardown evidence. */
  ghost predicate Reports(events: seq<Event>, outcome: SessionOutcome) {
    || (events != [] && events[|events| - 1].kind == SessionEnded(outcome))
    || (|events| >= 2 && events[|events| - 2].kind == SessionEnded(outcome) &&
        events[|events| - 1].kind == Passthrough(TEARDOWN))
  }

  ghost predicate Orderly(cfg: Config, p: Pump) {
    && p.taken <= |p.accepted|
    && Increasing(p.accepted) && Below(p.accepted, p.counter) && Announced(p.accepted)
    && (p.ended <==> !NoneEnded(p.accepted))
    && (p.closed ==> p.ended)
    && (p.overflowTerminated ==> p.ended && Reports(p.accepted, EndedFailed(BufferCeiling)))
    && (p.ended ==> EndsOnce(p.accepted) || (p.closed && EndsOnceThenTeardown(p.accepted)))
    && |p.accepted| - p.taken <=
       cfg.maxEvents + (if !p.ended then 0 else if !p.closed then 2 else 3)
  }

  ghost predicate Inv(cfg: Config, p: Pump) {
    Orderly(cfg, p) && (p.norm.terminated ==> p.ended)
  }

  /** A batch the pump may enqueue: freshly numbered, announced, and ending the session at most in last place. */
  ghost predicate Batch(p: Pump, events: seq<Event>) {
    && Increasing(p.accepted + events) && Below(events, p.counter) && Announced(p.accepted + events)
    && (NoneEnded(events) || EndsOnce(events))
  }

  lemma SettleFailedIsOrderly(cfg: Config, p: Pump, error: HarnessError)
    requires !p.ended && Orderly(cfg, p.(overflowTerminated := false))
    requires p.overflowTerminated ==> error == BufferCeiling
    ensures Orderly(cfg, SettleFailed(cfg, p, error)) && SettleFailed(cfg, p, error).ended
    ensures EndsOnce(SettleFailed(cfg, p, error).accepted)
  {
    var q := SettleFailed(cfg, p, error);
    assert q.accepted == p.accepted + [Event(p.counter + 1, ErrorEvent(error)),
                                       Event(p.counter + 2, SessionEnded(EndedFailed(error)))];
    var before := p.accepted + [Event(p.counter + 1, ErrorEvent(error))];
    assert NoneEnded(before);
    assert q.accepted[..|q.accepted| - 1] == before;
    assert q.accepted[|before|].kind.SessionEnded?;
  }

  lemma AcceptIsOrderly(cfg: Config, p: Pump, event: Event)
    requires Orderly(cfg, p) && !p.ended
    requires Increasing(p.accepted + [event]) && event.seqNo <= p.counter && Announced(p.accepted + [event])
    requires |p.accepted| - p.taken + 1 <= cfg.maxEvents
    ensures Orderly(cfg, Accept(cfg, p, event).(ended := event.kind.SessionEnded?))
  {
    var accepted := p.accepted + [event];
    assert accepted[..|accepted| - 1] == p.accepted;
    assert accepted[|p.accepted|] == event;
  }

  lemma AnnouncedPrefix(events: seq<Event>, n: nat)
    requires n <= |events|
    ensures Announced(events) ==> Announced(events[..n])
    ensures Increasing(events) ==> Increasing(events[..n])
  {}

  /** Enqueueing the head of a batch either accepts it, leaving a batch, or settles at the ceiling. */
  lemma EnqueueIsOrderly(cfg: Config, p: Pump, events: seq<Event>)
    requires Orderly(cfg, p) && !p.ended && events != [] && Batch(p, events)
    ensures var q := Enqueue(cfg, p, events[0]);
            && Orderly(cfg, q)
            && if q.overflowTerminated then q.ended
               else
                 && q.accepted + events[1..] == p.accepted + events
                 && if q.ended then events[1..] == [] && EndsOnce(events)
                    else Batch(q, events[1..]) && (EndsOnce(events[1..]) <==> EndsOnce(events))
  {
    var event, rest := events[0], events[1..];
    var q := Enqueue(cfg, p, event);
    if HasRoom(cfg, p, event) {
      assert (p.accepted + events)[..|p.accepted| + 1] == p.accepted + [event];
      AnnouncedPrefix(p.accepted + events, |p.accepted| + 1);
      AcceptIsOrderly(cfg, p, event);
      assert (p.accepted + [event]) + rest == p.accepted + events;
      if event.kind.SessionEnded? {
        assert EndsOnce(events);
      } else {
        BatchTail(p, q, events);
      }
    } else {
      SettleFailedIsOrderly(cfg, p.(overflowTerminated := true), BufferCeiling);
    }
  }

  lemma {:induction false} EnqueueAllIsOrderly(cfg: Config, p: Pump, events: seq<Event>)
    requires Orderly(cfg, p) && !p.ended && Batch(p, events)
    ensures var q := EnqueueAll(cfg, p, events);
            && Orderly(cfg, q)
            && (EndsOnce(events) ==> q.ended)
            && (!q.overflowTerminated ==> q.accepted == p.accepted + events && (q.ended <==> EndsOnce(events)))
    decreases events
  {
    if events == [] {
      assert p.accepted + events == p.accepted;
    } else {
      var q := Enqueue(cfg, p, events[0]);
      EnqueueIsOrderly(cfg, p, events);
      if !q.ended {
        EnqueueAllIsOrderly(cfg, q, events[1..]);
      } else {
        assert q.accepted + [] == q.accepted;
      }
    }
  }

  lemma BatchTail(p: Pump, q: Pump, events: seq<Event>)
    requires Batch(p, events) && events != [] && !events[0].kind.SessionEnded?
    requires q.accepted == p.accepted + [events[0]] && q.counter == p.counter
    ensures Batch(q, events[1..])
    ensures EndsOnce(events[1..]) <==> EndsOnce(events)
  {
    var rest := events[1..];
    assert q.accepted + rest == p.accepted + events;
    assert forall i :: 0 <= i < |rest| ==> rest[i] == events[i + 1];
    if EndsOnce(events) {
      assert |events| > 1;
      assert rest[..|rest| - 1] == events[..|events| - 1][1..];
      assert EndsOnce(rest);
    }
  }

  /** The shape of what one frame or the finalization contributes. */
  ghost predicate Settles(kinds: seq<EventKind>) {
    exists outcome :: kinds == Settlement(outcome)
  }

  ghost predicate NoEnd(kinds: seq<EventKind>) {
    forall i :: 0 <= i < |kinds| ==> !kinds[i].SessionEnded?
  }

  /** A record that settles the session: the terminal frame, or one that claims to be it. */
  predicate IsTerminal(frame: Frame) {
    frame.Terminal? || (frame.Native? && ClaimsTerminal(frame.record))
  }

  /** No frame is dropped; exactly the terminal ones settle, and only they mark the normalizer terminated. */
  lemma TranslationShape(spec: TurnSpec, s: NormState, frame: Frame)
    ensures var t := Translate(spec, s, frame);
            && t.kinds != []
            && (if IsTerminal(frame) then Settles(t.kinds) && t.next.terminated
                else NoEnd(t.kinds) && t.next.terminated == s.terminated)
  {
    if frame.Terminal? {
      assert Translate(spec, s, frame).kinds == Settlement(OutcomeOf(spec, s, frame.result));
    } else if IsTerminal(frame) {
      assert Translate(spec, s, frame).kinds == Settlement(OutcomeOf(spec, s, ReadResult(frame.record)));
    } else if frame.Native? {
      var name := StringAt(Some(frame.record), "method");
      if name.Some? {
        NotificationTranslationShape(spec, s, name.value, AsRecord(Field(Some(frame.record), "params")));
      }
    }
  }

  lemma NotificationTranslationShape(spec: TurnSpec, s: NormState, name: string, params: Option<Record>)
    ensures var t := TranslateNotification(spec, s, name, params);
            t.kinds != [] && NoEnd(t.kinds) && t.next.terminated == s.terminated
  {}

  lemma SettlementEnds(counter: nat, kinds: seq<EventKind>)
    requires Settles(kinds)
    ensures var events := Stamp(counter, kinds); EndsOnce(events) && Announced(events)
  {
    var outcome :| kinds == Settlement(outcome);
    var events := Stamp(counter, kinds);
    assert events[|events| - 1].kind == SessionEnded(outcome);
  }

  lemma UnsettledStaysOpen(counter: nat, kinds: seq<EventKind>)
    requires NoEnd(kinds)
    ensures var events := Stamp(counter, kinds); NoneEnded(events) && !EndsOnce(events) && Announced(events)
  {}

  /** Later, later-numbered events after earlier ones. */
  lemma JoinIsOrdered(before: seq<Event>, after: seq<Event>, counter: nat)
    requires Increasing(before) && Below(before, counter) && Announced(before)
    requires Increasing(after) && Announced(after) && forall i :: 0 <= i < |after| ==> after[i].seqNo > counter
    ensures Increasing(before + after) && Announced(before + after)
  {}

  lemma StampIsBatch(p: Pump, skipped: nat, kinds: seq<EventKind>, q: Pump)
    requires Increasing(p.accepted) && Below(p.accepted, p.counter) && Announced(p.accepted)
    requires Settles(kinds) || NoEnd(kinds)
    requires q.accepted == p.accepted && q.counter == p.counter + skipped + |kinds|
    ensures Batch(q, Stamp(p.counter + skipped, kinds))
    ensures EndsOnce(Stamp(p.counter + skipped, kinds)) <==> Settles(kinds)
  {
    var events := Stamp(p.counter + skipped, kinds);
    if Settles(kinds) {
      SettlementEnds(p.counter + skipped, kinds);
    } else {
      UnsettledStaysOpen(p.counter + skipped, kinds);
    }
    JoinIsOrdered(p.accepted, events, p.counter);
  }

  lemma CountingIsOrderly(cfg: Config, p: Pump, q: Pump)
    requires Orderly(cfg, p) && q == p.(norm := q.norm, counter := q.counter) && q.counter >= p.counter
    ensures Orderly(cfg, q)
  {}

  /** Enqueueing freshly numbered kinds, from a pump that has counted them. */
  lemma NumberedKeepsInv(cfg: Config, p: Pump, skipped: nat, kinds: seq<EventKind>, q: Pump, r: Pump)
    requires Orderly(cfg, p) && Orderly(cfg, q) && p.ended == q.ended
    requires Settles(kinds) || NoEnd(kinds)
    requires q.norm.terminated ==> p.ended || Settles(kinds)
    requires q.accepted == p.accepted && q.counter == p.counter + skipped + |kinds|
    requires r == EnqueueAll(cfg, q, Stamp(p.counter + skipped, kinds))
    ensures Inv(cfg, r) && r.closed == q.closed && r.norm == q.norm && (Settles(kinds) ==> r.ended)
    ensures !p.ended && !r.overflowTerminated ==>
              r.accepted == p.accepted + Stamp(p.counter + skipped, kinds) && (r.ended <==> Settles(kinds))
  {
    if !p.ended {
      StampIsBatch(p, skipped, kinds, q);
      EnqueueAllIsOrderly(cfg, q, Stamp(p.counter + skipped, kinds));
    }
  }

  /** A translation that settles exactly when it marks the normalizer terminated keeps the invariant. */
  lemma ContributionKeepsInv(cfg: Config, p: Pump, t: Translation, q: Pump)
    requires Inv(cfg, p) && !p.closed && q == Contribute(cfg, p, t)
    requires Settles(t.kinds) || NoEnd(t.kinds)
    requires t.next.terminated ==> p.ended || Settles(t.kinds)
    ensures Inv(cfg, q) && q.closed == p.closed && q.norm == t.next
    ensures !p.ended && !q.overflowTerminated ==>
              q.accepted == p.accepted + Stamp(p.counter + t.skipped, t.kinds) && (q.ended <==> Settles(t.kinds))
  {
    var counted := p.(norm := t.next, counter := p.counter + t.skipped + |t.kinds|);
    CountingIsOrderly(cfg, p, counted);
    NumberedKeepsInv(cfg, p, t.skipped, t.kinds, counted, q);
  }

  lemma FrameKeepsInv(cfg: Config, p: Pump, frame: Frame)
    requires Inv(cfg, p) && !p.closed
    ensures Inv(cfg, OnFrame(cfg, p, frame))
  {
    TranslationShape(cfg.spec, p.norm, frame);
    ContributionKeepsInv(cfg, p, Translate(cfg.spec, p.norm, frame), OnFrame(cfg, p, frame));
  }

  lemma EndKeepsInv(cfg: Config, p: Pump)
    requires Inv(cfg, p) && !p.closed
    ensures Inv(cfg, OnEnd(cfg, p))
  {
    if !p.ended {
      var kinds := Finalization(p.norm);
      assert kinds == Settlement(EndedFailed(NoTerminalFrame));
      var counted := p.(counter := p.counter + |kinds|);
      CountingIsOrderly(cfg, p, counted);
      NumberedKeepsInv(cfg, p, 0, kinds, counted, EnqueueAll(cfg, counted, Stamp(p.counter, kinds)));
    }
  }

  lemma TeardownIsOrderly(cfg: Config, p: Pump)
    requires Orderly(cfg, p) && !p.closed && p.ended
    ensures var evidence := Event(p.counter + 1, Passthrough(TEARDOWN));
            Orderly(cfg, Accept(cfg, p, evidence).(counter := p.counter + 1, closed := true))
  {
    EvidenceLast(p.accepted, Event(p.counter + 1, Passthrough(TEARDOWN)));
  }

  lemma EvidenceLast(accepted: seq<Event>, evidence: Event)
    requires EndsOnce(accepted) && evidence.kind == Passthrough(TEARDOWN)
    requires evidence.seqNo > 0 && Increasing(accepted) && Below(accepted, evidence.seqNo - 1) && Announced(accepted)
    ensures EndsOnceThenTeardown(accepted + [evidence]) && !NoneEnded(accepted + [evidence])
    ensures Increasing(accepted + [evidence]) && Below(accepted + [evidence], evidence.seqNo) &&
            Announced(accepted + [evidence])
    ensures forall outcome :: Reports(accepted, outcome) ==> Reports(accepted + [evidence], outcome)
  {
    var all := accepted + [evidence];
    assert all[..|all| - 1] == accepted;
    assert all[|accepted| - 1] == accepted[|accepted| - 1];
  }

  lemma ThrowKeepsInv(cfg: Config, p: Pump, message: string)
    requires Inv(cfg, p) && !p.closed
    ensures Inv(cfg, OnThrow(cfg, p, message))
  {
    if p.ended {
      TeardownIsOrderly(cfg, p);
    } else {
      SettleFailedIsOrderly(cfg, p, TransportThrew(message));
    }
  }

  lemma StepKeepsInv(cfg: Config, p: Pump, input: PumpInput)
    requires Inv(cfg, p)
    ensures Inv(cfg, PumpStep(cfg, p, input))
  {
    if !p.closed {
      match input
      case Yields(frame) => FrameKeepsInv(cfg, p, frame);
      case Ends => EndKeepsInv(cfg, p);
      case Throws(message) => ThrowKeepsInv(cfg, p, message);
      case Takes =>
    }
  }

  lemma {:induction false} RunKeepsInv(cfg: Config, p: Pump, inputs: seq<PumpInput>)
    requires Inv(cfg, p)
    ensures Inv(cfg, PumpRun(cfg, p, inputs))
    decreases inputs
  {
    if inputs != [] {
      StepKeepsInv(cfg, p, inputs[0]);
      RunKeepsInv(cfg, PumpStep(cfg, p, inputs[0]), inputs[1..]);
    }
  }

  /** For every transport stream, at every ceiling, however the consumer interleaves: once the pump has closed,
      the accepted events contain exactly one `session.ended`; only a teardown passthrough may follow it;
      failures are announced; sequence numbers strictly increase; and the backlog never exceeds the event
      ceiling by more than the two settlement events and the one evidence event. */
  lemma ExactlyOneSettlement(cfg: Config, inputs: seq<PumpInput>)
    ensures var p := PumpRun(cfg, STARTED, inputs);
            && p.taken <= |p.accepted|
            && |Unread(p)| <= cfg.maxEvents + 3
            && Increasing(p.accepted) && Announced(p.accepted)
            && if p.closed then EndsOnce(p.accepted) || EndsOnceThenTeardown(p.accepted)
               else NoneEnded(p.accepted) || EndsOnce(p.accepted)
  {
    RunKeepsInv(cfg, STARTED, inputs);
  }

  /** The transport has finished, one way or the other. */
  predicate Finishes(inputs: seq<PumpInput>) {
    exists i :: 0 <= i < |inputs| && (inputs[i].Ends? || inputs[i].Throws?)
  }

  lemma {:induction false} ClosedStays(cfg: Config, p: Pump, inputs: seq<PumpInput>)
    requires p.closed && p.taken <= |p.accepted|
    ensures var q := PumpRun(cfg, p, inputs); q.closed && q.accepted == p.accepted
    decreases inputs
  {
    if inputs != [] { ClosedStays(cfg, PumpStep(cfg, p, inputs[0]), inputs[1..]); }
  }

  /** A transport that finishes always settles: the session never hangs. */
  lemma {:induction false} FinishingCloses(cfg: Config, p: Pump, inputs: seq<PumpInput>)
    requires Inv(cfg, p) && Finishes(inputs)
    ensures PumpRun(cfg, p, inputs).closed
    decreases inputs
  {
    var i :| 0 <= i < |inputs| && (inputs[i].Ends? || inputs[i].Throws?);
    var q := PumpStep(cfg, p, inputs[0]);
    StepKeepsInv(cfg, p, inputs[0]);
    if i == 0 {
      ClosedStays(cfg, q, inputs[1..]);
    } else {
      assert inputs[1..][i - 1] == inputs[i];
      FinishingCloses(cfg, q, inputs[1..]);
    }
  }

  // ----- the session object -----

  class Session {
    const cfg: Config
    const queue: EventQueue.Queue<Event>
    const normalizer: Normalizer
    var ended: bool
    var overflowTerminated: bool
    /** `send` has run; `shut` records `interrupt()` or `close()`. */
    var sent: bool
    var shut: bool

    ghost predicate Valid()
      reads this, queue, normalizer
    {
      && queue.Valid()
      && queue.maxEvents == cfg.maxEvents && queue.maxBytes == cfg.maxBytes && queue.sizeOf == cfg.sizeOf
      && normalizer.spec == cfg.spec
    }

    ghost function View(): Pump
      reads this, queue, normalizer
    {
      Pump(normalizer.View(), normalizer.counter, queue.accepted, |queue.delivered|, queue.bufferedBytes, ended,
           overflowTerminated, queue.done)
    }

    constructor (cfg: Config)
      ensures Valid() && View() == STARTED && !sent && !shut && fresh(queue) && fresh(normalizer)
    {
      this.cfg := cfg;
      queue := new EventQueue.Queue(cfg.maxEvents, cfg.maxBytes, cfg.sizeOf);
      normalizer := new Normalizer(cfg.spec);
      ended, overflowTerminated, sent, shut := false, false, false, false;
    }

    lemma UnreadIsQueued()
      requires Valid()
      ensures View().taken <= |View().accepted| && Unread(View()) == queue.Unread()
    {}

    /** One turn per session, and none after a shutdown. */
    method Send() returns (accepted: bool)
      modifies this`sent
      ensures accepted <==> !shut && !old(sent)
      ensures sent == (old(sent) || accepted)
    {
      accepted := !shut && !sent;
      if accepted { sent := true; }
    }

    /** Without a running turn a shutdown ends the stream itself; otherwise the pump will. */
    method Shutdown()
      requires Valid()
      modifies this`shut, queue
      ensures Valid() && shut
      ensures View() == old(View()).(closed := old(queue.done) || !sent)
    {
      shut := true;
      if !sent { queue.Close(); }
    }

    method FailSession(error: HarnessError)
      requires Valid()
      modifies this`ended, queue, normalizer`counter
      ensures Valid() && View() == SettleFailed(cfg, old(View()), error)
    {
      if ended { return; }
      ghost var p := View();
      ended := true;
      var events := normalizer.Fail(error);
      ghost var failing := p.(ended := true, counter := p.counter + 2);
      assert View() == failing;
      ForceBoth(events[0], events[1]);
      SettledByTwo(cfg, p, error);
    }

    method ForceBoth(first: Event, second: Event)
      requires Valid()
      modifies queue
      ensures Valid() && View() == Accept(cfg, Accept(cfg, old(View()), first), second)
    {
      ForceOne(first);
      ForceOne(second);
    }

    /** Past the ceiling: only what settles a session. */
    method ForceOne(event: Event)
      requires Valid()
      modifies queue
      ensures Valid() && View() == Accept(cfg, old(View()), event)
    {
      queue.ForcePush(event);
    }

    method EnqueueEvent(event: Event)
      requires Valid()
      modifies this`ended, this`overflowTerminated, queue, normalizer`counter
      ensures Valid() && View() == Enqueue(cfg, old(View()), event)
    {
      UnreadIsQueued();
      if ended { return; }
      var ok := queue.Push(event);
      if ok {
        if event.kind.SessionEnded? { ended := true; }
        return;
      }
      overflowTerminated := true;
      assert View() == old(View()).(overflowTerminated := true);
      FailSession(BufferCeiling);
    }

    /** Enqueue a batch, giving up once the ceiling has settled the session. */
    method EnqueueBatch(events: seq<Event>)
      requires Valid() && !overflowTerminated
      modifies this`ended, this`overflowTerminated, queue, normalizer`counter
      ensures Valid() && View() == EnqueueAll(cfg, old(View()), events)
    {
      UnreadIsQueued();
      var i := 0;
      while i < |events| && !overflowTerminated
        invariant 0 <= i <= |events| && Valid()
        invariant EnqueueAll(cfg, old(View()), events) ==
                  if overflowTerminated then View() else EnqueueAll(cfg, View(), events[i..])
      {
        assert events[i..][1..] == events[i + 1..];
        EnqueueEvent(events[i]);
        UnreadIsQueued();
        i := i + 1;
      }
    }

    /** Normalize one frame: the translation it contributes, already numbered. */
    method NormalizeFrame(frame: Frame) returns (events: seq<Event>, ghost t: Translation)
      requires Valid()
      modifies normalizer
      ensures Valid() && t == Translate(cfg.spec, old(View()).norm, frame)
      ensures View() == old(View()).(norm := t.next, counter := old(View()).counter + t.skipped + |t.kinds|)
      ensures events == Stamp(old(View()).counter + t.skipped, t.kinds)
    {
      t := Translate(cfg.spec, View().norm, frame);
      events := normalizer.Normalize(frame);
    }

    /** Enqueue what a translation contributed. */
    method Feed(events: seq<Event>, ghost p: Pump, ghost t: Translation)
      requires Valid() && !overflowTerminated
      requires View() == p.(norm := t.next, counter := p.counter + t.skipped + |t.kinds|)
      requires events == Stamp(p.counter + t.skipped, t.kinds)
      modifies this`ended, this`overflowTerminated, queue, normalizer`counter
      ensures Valid() && View() == Contribute(cfg, p, t)
    {
      EnqueueBatch(events);
    }

    method FrameYielded(frame: Frame)
      requires Valid() && !queue.done && !overflowTerminated
      modifies this`ended, this`overflowTerminated, queue, normalizer
      ensures Valid()
      ensures View() == Contribute(cfg, old(View()), Translate(cfg.spec, old(View()).norm, frame))
    {
      ghost var p := View();
      var events, t := NormalizeFrame(frame);
      Feed(events, p, t);
    }

    /** Enqueue a batch with no early exit: once the session is settled the rest is dropped one by one. */
    method EnqueueEach(events: seq<Event>)
      requires Valid() && !overflowTerminated
      modifies this`ended, this`overflowTerminated, queue, normalizer`counter
      ensures Valid() && View() == EnqueueAll(cfg, old(View()), events)
    {
      UnreadIsQueued();
      for i := 0 to |events|
        invariant Valid() && (overflowTerminated ==> ended)
        invariant EnqueueAll(cfg, old(View()), events) ==
                  if overflowTerminated then View() else EnqueueAll(cfg, View(), events[i..])
      {
        assert events[i..][1..] == events[i + 1..];
        EnqueueEvent(events[i]);
        UnreadIsQueued();
      }
    }

    /** The stream ended with no terminal frame. */
    method FinalizeStream()
      requires Valid() && !ended && !overflowTerminated
      modifies this`ended, this`overflowTerminated, queue, normalizer
      ensures Valid() && View().(closed := true) == OnEnd(cfg, old(View()))
    {
      ghost var p := View();
      var events := normalizer.Finalize();
      assert View() == p.(counter := p.counter + |events|);
      EnqueueEach(events);
    }

    method StreamEnded()
      requires Valid() && !queue.done && (overflowTerminated ==> ended)
      modifies this`ended, this`overflowTerminated, queue, normalizer
      ensures Valid() && View() == OnEnd(cfg, old(View()))
    {
      if ended {
        EndedIsJustClosed(cfg, View());
      } else {
        FinalizeStream();
      }
      queue.Close();
    }

    method TransportFailed(message: string)
      requires Valid() && !queue.done
      modifies this`ended, queue, normalizer`counter
      ensures Valid() && View() == OnThrow(cfg, old(View()), message)
    {
      UnreadIsQueued();
      if ended {
        var evidence := normalizer.Envelope(Passthrough(TEARDOWN));
        queue.ForcePush(evidence);
      } else {
        FailSession(TransportThrew(message));
      }
      queue.Close();
    }

    /** The consumer, if it is not parked, takes the oldest unread event or learns there is none. */
    method Take() returns (r: EventQueue.Poll<Event>)
      requires Valid() && !queue.wake
      modifies queue
      ensures Valid() && View() == PumpStep(cfg, old(View()), Takes)
      ensures r.Delivered? ==> old(View()).taken < |View().accepted| && r.event == View().accepted[old(View()).taken]
      ensures r.Finished? ==> View().closed && View().taken == |View().accepted|
      ensures r.Waiting? ==> !View().closed && View().taken == |View().accepted|
    {
      UnreadIsQueued();
      r := queue.Next();
    }

    /** One scheduling step: a settled or closed session ignores its transport, a parked consumer waits. */
    method Deliver(input: PumpInput)
      requires Valid() && (overflowTerminated ==> ended)
      modifies this`ended, this`overflowTerminated, queue, normalizer
      ensures Valid() && View() == PumpStep(cfg, old(View()), input)
    {
      UnreadIsQueued();
      match input
      case Yields(frame) => if !queue.done && !overflowTerminated { FrameYielded(frame); }
      case Ends => if !queue.done { StreamEnded(); }
      case Throws(message) => if !queue.done { TransportFailed(message); }
      case Takes => if !queue.wake { var taken := Take(); }
    }

    /** The session along any schedule of transport and consumer. */
    method Drive(inputs: seq<PumpInput>)
      requires Valid() && Inv(cfg, View())
      modifies this`ended, this`overflowTerminated, queue, normalizer
      ensures Valid() && View() == PumpRun(cfg, old(View()), inputs)
      ensures Inv(cfg, View())
    {
      for i := 0 to |inputs|
        invariant Valid() && Inv(cfg, View())
        invariant PumpRun(cfg, old(View()), inputs) == PumpRun(cfg, View(), inputs[i..])
      {
        assert inputs[i..][1..] == inputs[i + 1..];
        StepKeepsInv(cfg, View(), inputs[i]);
        Deliver(inputs[i]);
      }
    }
  }
}
