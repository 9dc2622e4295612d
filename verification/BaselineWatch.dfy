/** `BaselineAdvanceCoordinator` (`baseline-advance-watcher.ts`): debounce, coalesce, cancel. The class is the
    coordinator; the machine around it interleaves ref movements, watcher events, timers and drain steps. */
module BaselineWatch {
  import opened Json
  import Machine

  type Oid = nat

  // ----- the coordinator -----

  datatype Flags = Flags(pending: bool, running: bool, dirty: bool, closed: bool)

  function Notify(f: Flags): Flags { if f.closed then f else f.(pending := true) }

  function Cancel(f: Flags): Flags { f.(closed := true, pending := false) }

  /** `trigger`: start a drain, or mark the running one dirty. */
  function Trigger(f: Flags): Flags {
    if f.closed then f else if f.running then f.(dirty := true) else f.(running := true)
  }

  predicate Starts(f: Flags) { !f.closed && !f.running }

  /** The drain's loop condition, after an iteration. */
  predicate Repeats(f: Flags) { f.dirty && !f.closed }

  class Coordinator {
    var pending: bool
    var running: bool
    var dirty: bool
    var closed: bool

    ghost function View(): Flags
      reads this
    {
      Flags(pending, running, dirty, closed)
    }

    constructor ()
      ensures View() == Flags(false, false, false, false)
    {
      pending, running, dirty, closed := false, false, false, false;
    }

    method Notified()
      modifies this
      ensures View() == Notify(old(View()))
    {
      if closed { return; }
      if pending { pending := false; }
      pending := true;
    }

    method Cancelled()
      modifies this
      ensures View() == Cancel(old(View()))
    {
      closed := true;
      if pending { pending := false; }
    }

    /** The debounce timer fires; `start` says a drain begins. */
    method TimerFired() returns (start: bool)
      requires pending
      modifies this
      ensures start == Starts(old(View()))
      ensures View() == Trigger(old(View()).(pending := false))
    {
      pending := false;
      if closed { return false; }
      if running {
        dirty := true;
        return false;
      }
      running := true;
      return true;
    }

    /** The top of the drain's loop. */
    method IterationBegins()
      modifies this
      ensures View() == old(View()).(dirty := false)
    {
      dirty := false;
    }

    /** The bottom of the drain's loop: go round again, or leave. */
    method IterationEnds() returns (again: bool)
      modifies this
      ensures again == Repeats(old(View()))
      ensures View() == old(View()).(dirty := if again then false else old(dirty))
    {
      again := dirty && !closed;
      if again { IterationBegins(); }
    }

    /** The drain's `finally`. */
    method DrainSettles()
      modifies this
      ensures View() == old(View()).(running := false)
    {
      running := false;
    }
  }

  // ----- the machine -----

  /** Where a drain is suspended: before or after its tip was read, before or after its pass read the tip, after
      the pass, or between leaving the loop and its `finally`. */
  datatype Drain = Resolving | Resolved(oid: Oid) | Passing | PassSampled(oid: Oid) | PassDone | Leaving

  /** `behind`: the store was not at the tip when the watch began, or when an iteration last failed, and no
      iteration has begun since. */
  datatype World = World(
    flags: Flags,
    drains: seq<Drain>,
    tip: Oid,
    stored: Option<Oid>,
    events: nat,
    notified: nat,
    fired: nat,
    iterations: nat,
    passes: nat,
    passesAfterClose: nat,
    behind: bool)

  /** A ref moves and its watch event is on the way; the event arrives; someone else notifies; the timer fires;
      the owner cancels; or drain `i` takes a step, or fails where it may. */
  datatype Event = RefMoves(to: Oid) | EventArrives | OthersNotify | TimerFires | Cancels
                 | Advances(i: nat) | Fails(i: nat)

  /** The watch opens over any store: none yet, at the tip or not. */
  function Initial(tip: Oid, stored: Option<Oid>): World {
    World(Flags(false, false, false, false), [], tip, stored, 0, 0, 0, 0, 0, 0, stored != Some(tip))
  }

  function DoNotify(w: World): World { w.(flags := Notify(w.flags), notified := w.notified + 1) }

  /** Timer callbacks run only when no promise continuation is due. */
  predicate TimerMayFire(w: World) {
    w.flags.pending && forall i :: 0 <= i < |w.drains| ==> w.drains[i] != Leaving
  }

  function DoFire(w: World): World {
    var f := w.flags.(pending := false);
    var u := w.(flags := Trigger(f), fired := w.fired + 1);
    if Starts(f) then
      u.(flags := u.flags.(dirty := false), drains := w.drains + [Resolving], iterations := w.iterations + 1,
         behind := false)
    else u
  }

  function SetDrain(w: World, i: nat, d: Drain): World
    requires i < |w.drains|
  {
    w.(drains := w.drains[i := d])
  }

  function EndIteration(w: World, i: nat): World
    requires i < |w.drains|
  {
    if Repeats(w.flags) then
      SetDrain(w, i, Resolving).(flags := w.flags.(dirty := false), iterations := w.iterations + 1, behind := false)
    else SetDrain(w, i, Leaving)
  }

  function DoAdvance(w: World, i: nat): World
    requires i < |w.drains|
  {
    match w.drains[i]
    case Resolving => SetDrain(w, i, Resolved(w.tip))
    case Resolved(oid) =>
      if w.stored == Some(oid) then EndIteration(w, i)
      else SetDrain(w, i, Passing).(passes := w.passes + 1,
                                    passesAfterClose := w.passesAfterClose + if w.flags.closed then 1 else 0)
    case Passing => SetDrain(w, i, PassSampled(w.tip))
    case PassSampled(oid) => SetDrain(w, i, PassDone).(stored := Some(oid))
    case PassDone => EndIteration(w, i)
    case Leaving => w.(flags := w.flags.(running := false), drains := w.drains[..i] + w.drains[i + 1..])
  }

  predicate MayFail(d: Drain) { d.Resolving? || d.Resolved? || d.Passing? || d.PassSampled? }

  /** The iteration's error is reported, and the loop goes on as after any iteration. */
  function DoFail(w: World, i: nat): World
    requires i < |w.drains|
  {
    EndIteration(w.(behind := w.stored != Some(w.tip)), i)
  }

  function Step(w: World, e: Event): World {
    match e
    case RefMoves(to) => w.(tip := to, events := w.events + 1)
    case EventArrives => if w.events == 0 then w else DoNotify(w.(events := w.events - 1))
    case OthersNotify => DoNotify(w)
    case TimerFires => if TimerMayFire(w) then DoFire(w) else w
    case Cancels => w.(flags := Cancel(w.flags))
    case Advances(i) => if i < |w.drains| then DoAdvance(w, i) else w
    case Fails(i) => if i < |w.drains| && MayFail(w.drains[i]) then DoFail(w, i) else w
  }

  function Run(w: World, events: seq<Event>): World { Machine.Run(Step, w, events) }

  // ----- safety -----

  /** An iteration that will still see the newest tip. */
  predicate WillSee(d: Drain, tip: Oid) {
    match d
    case Resolving => true
    case Resolved(oid) => oid == tip
    case Passing => true
    case PassSampled(oid) => oid == tip
    case _ => false
  }

  /** No movement is lost: unless the store was left behind or the owner closed the watch, either it is at the tip,
      or an event, a timer, the dirty flag or an in-flight iteration will bring it there. */
  predicate Covered(w: World) {
    !w.flags.closed && !w.behind ==>
      || w.stored == Some(w.tip) || w.events > 0 || w.flags.pending || w.flags.dirty
      || exists i :: 0 <= i < |w.drains| && WillSee(w.drains[i], w.tip)
  }

  /** A pass about to store an oid that is no longer the tip has not been the last word: something still has to run
      after it. */
  predicate StaleIsFollowed(w: World) {
    !w.flags.closed && !w.behind && w.drains != [] && w.drains[0].PassSampled? && w.drains[0].oid != w.tip ==>
      w.events > 0 || w.flags.pending || w.flags.dirty
  }

  /** A store left behind really is, or something will still run. */
  predicate BehindIsBehind(w: World) {
    w.behind ==>
      && (w.drains == [] || w.drains[0].PassDone? || w.drains[0].Leaving?)
      && (!w.flags.closed ==> w.stored != Some(w.tip) || w.events > 0 || w.flags.pending || w.flags.dirty)
  }

  predicate Quiescent(w: World) { w.events == 0 && !w.flags.pending && w.drains == [] }

  function One(b: bool): nat { if b then 1 else 0 }

  /** How many more passes a drain may start without going round its loop. */
  function PassLeft(w: World): nat {
    if w.drains != [] && (w.drains[0].Resolving? || w.drains[0].Resolved?) then 1 else 0
  }

  predicate Inv(w: World) {
    && |w.drains| == One(w.flags.running)
    && (w.flags.dirty && !w.flags.closed ==> w.flags.running)
    && (w.drains != [] && w.drains[0].Leaving? && !w.flags.closed ==> !w.flags.dirty)
    && (w.flags.closed ==> !w.flags.pending)
    && Covered(w)
    && StaleIsFollowed(w)
    && BehindIsBehind(w)
    && w.fired + One(w.flags.pending) <= w.notified
    && w.iterations + One(w.flags.dirty) <= w.fired
    && w.passes + PassLeft(w) <= w.iterations
    && (w.flags.closed ==> w.passesAfterClose + PassLeft(w) <= 1)
    && (!w.flags.closed ==> w.passesAfterClose == 0)
  }

  lemma EndIterationKeepsInv(w: World)
    requires w.drains != [] && Inv(w.(drains := [PassDone]))
    ensures Inv(EndIteration(w.(drains := [w.drains[0]]), 0))
  {
    var u := EndIteration(w.(drains := [w.drains[0]]), 0);
    assert |u.drains| == 1;
    if u.drains[0].Resolving? { assert WillSee(u.drains[0], u.tip); }
  }

  /** A drain that goes on to its next await inside the iteration. */
  lemma ProceedKeepsInv(w: World)
    requires Inv(w) && w.drains != []
    requires w.drains[0].Resolving? || (w.drains[0].Resolved? && w.stored != Some(w.drains[0].oid))
      || w.drains[0].Passing? || w.drains[0].PassSampled?
    ensures Inv(DoAdvance(w, 0))
  {
    var d, u := w.drains[0], DoAdvance(w, 0);
    assert w.drains == [d] && |u.drains| == 1;
    assert WillSee(d, w.tip) ==> WillSee(u.drains[0], u.tip) || u.stored == Some(u.tip);
  }

  lemma AdvanceKeepsInv(w: World)
    requires Inv(w) && w.drains != []
    ensures Inv(DoAdvance(w, 0))
  {
    var d := w.drains[0];
    assert w.drains == [d];
    if d.PassDone? || (d.Resolved? && w.stored == Some(d.oid)) {
      assert Inv(w.(drains := [PassDone]));
      EndIterationKeepsInv(w);
    } else if d.Leaving? {
      assert DoAdvance(w, 0).drains == [];
    } else {
      ProceedKeepsInv(w);
    }
  }

  lemma FailKeepsInv(w: World)
    requires Inv(w) && w.drains != []
    ensures Inv(DoFail(w, 0))
  {
    assert w.drains == [w.drains[0]];
    var u := w.(behind := w.stored != Some(w.tip));
    assert Inv(u.(drains := [PassDone]));
    EndIterationKeepsInv(u);
  }

  lemma StepKeepsInv(w: World, e: Event)
    requires Inv(w)
    ensures Inv(Step(w, e))
  {
    if e.Advances? && e.i < |w.drains| {
      AdvanceKeepsInv(w);
    } else if e.Fails? && e.i < |w.drains| && MayFail(w.drains[e.i]) {
      FailKeepsInv(w);
    } else if e.TimerFires? && TimerMayFire(w) {
      var u := DoFire(w);
      if Starts(w.flags.(pending := false)) {
        assert u.drains == [Resolving];
        assert WillSee(u.drains[0], u.tip);
      }
    }
  }

  lemma RunKeepsInv(w: World, events: seq<Event>)
    requires Inv(w)
    ensures Inv(Run(w, events))
  {
    forall t, e | Inv(t) ensures Inv(Step(t, e)) { StepKeepsInv(t, e); }
    Machine.RunKeeps(Step, Inv, w, events);
  }

  /** Over every interleaving: at most one drain runs, no movement is lost, passes never outnumber
      notifications, and at most one pass starts after a cancel. */
  lemma CoordinatorSafety(tip: Oid, stored: Option<Oid>, events: seq<Event>)
    ensures var w := Run(Initial(tip, stored), events);
            && |w.drains| <= 1 && (w.flags.running <==> |w.drains| == 1)
            && Covered(w)
            && w.passes <= w.notified
            && w.passesAfterClose <= 1
  {
    RunKeepsInv(Initial(tip, stored), events);
  }

  /** When nothing is left to happen in an open watch, the store is at the tip exactly when it was not left behind:
      the last iteration did not fail over a stale store, and at least one ran over a store stale from the start. */
  lemma QuiescentIsCurrent(tip: Oid, stored: Option<Oid>, events: seq<Event>)
    requires var w := Run(Initial(tip, stored), events); Quiescent(w) && !w.flags.closed
    ensures var w := Run(Initial(tip, stored), events); w.stored == Some(w.tip) <==> !w.behind
  {
    RunKeepsInv(Initial(tip, stored), events);
  }

  /** Drain `i` has resolved the tip, and the store holds another. */
  predicate FindsMovement(w: World, e: Event) {
    e.Advances? && e.i < |w.drains| && w.drains[e.i].Resolved? && w.stored != Some(w.drains[e.i].oid)
  }

  /** Drain `i` has a pass in flight that read this tip. */
  predicate Lands(w: World, e: Event, oid: Oid) {
    e.Advances? && e.i < |w.drains| && w.drains[e.i] == PassSampled(oid)
  }

  /** No movement, no work: a pass begins exactly when a drain finds another tip than the stored one. The store
      changes only when a pass lands, and then to the tip that pass read; a drain begins exactly when the timer
      fires while none runs in an open watch. */
  lemma NoMovementNoWork(w: World, e: Event, oid: Oid)
    ensures Step(w, e).passes == w.passes + if FindsMovement(w, e) then 1 else 0
    ensures Lands(w, e, oid) ==> Step(w, e).stored == Some(oid)
    ensures Step(w, e).stored != w.stored ==> exists read :: Lands(w, e, read)
    ensures |Step(w, e).drains| > |w.drains| <==>
              e.TimerFires? && TimerMayFire(w) && !w.flags.running && !w.flags.closed
  {
    if Step(w, e).stored != w.stored { assert Lands(w, e, w.drains[e.i].oid); }
  }

  /** After a cancel with no drain in flight, no pass ever starts again. */
  lemma {:induction false} IdleCancelIsFinal(w: World, events: seq<Event>)
    requires Inv(w) && w.flags.closed && w.drains == []
    ensures Run(w, events).passes == w.passes && Run(w, events).drains == []
    decreases events
  {
    if events != [] {
      StepKeepsInv(w, events[0]);
      IdleCancelIsFinal(Step(w, events[0]), events[1..]);
    }
  }

  /** A store left behind stays so until the next movement, which repairs it. */
  lemma NextMovementRepairs(w: World, to: Oid)
    requires Inv(w) && Quiescent(w) && !w.flags.closed
    ensures var u := Run(w, Moves(to) + DRAINS); Quiescent(u) && !u.behind && u.stored == Some(to) && u.tip == to
  {
    var moves := Moves(to);
    var w1 := Step(w, moves[0]);
    var w2 := Step(w1, moves[1]);
    var w3 := Step(w2, moves[2]);
    assert w3.drains == [Resolving];
    Machine.RunIsChain(Step, [w, w1, w2, w3], moves);
    Machine.RunAppend(Step, w, moves, DRAINS);
    DrainBringsTheTip(w3);
  }

  /** A ref moves, its event arrives, and the timer fires. */
  function Moves(to: Oid): seq<Event> { [RefMoves(to), EventArrives, TimerFires] }

  const DRAINS: seq<Event> := [Advances(0), Advances(0), Advances(0), Advances(0), Advances(0), Advances(0)]

  lemma DrainBringsTheTip(w: World)
    requires w.drains == [Resolving] && !w.flags.dirty
    ensures var u := Run(w, DRAINS);
            && u.drains == [] && u.stored == Some(w.tip) && u.tip == w.tip && u.behind == w.behind &&
               u.events == w.events
            && u.flags == w.flags.(running := false)
  {
    var w1 := Step(w, Advances(0));
    var w2 := Step(w1, Advances(0));
    var w3 := Step(w2, Advances(0));
    var w4 := Step(w3, Advances(0));
    var w5 := Step(w4, Advances(0));
    var w6 := Step(w5, Advances(0));
    assert w1.drains == [Resolved(w.tip)];
    if w.stored == Some(w.tip) {
      assert w2.drains == [Leaving] && w3.drains == [];
    } else {
      assert w2.drains == [Passing] && w3.drains == [PassSampled(w.tip)] && w4.drains == [PassDone];
      assert w5.drains == [Leaving] && w6.drains == [];
    }
    Machine.RunIsChain(Step, [w, w1, w2, w3, w4, w5, w6], DRAINS);
  }

  /** An iteration that fails leaves the store behind with nothing scheduled. */
  lemma FailedPassIsForgotten()
    ensures var w := Run(Initial(0, Some(0)), Moves(1) + [Advances(0), Advances(0), Fails(0), Advances(0)]);
            Quiescent(w) && !w.flags.closed && w.behind && w.stored == Some(0) && w.tip == 1
  {
    var start, moves := Initial(0, Some(0)), Moves(1);
    var w1 := Step(start, moves[0]);
    var w2 := Step(w1, moves[1]);
    var w3 := Step(w2, moves[2]);
    assert w3.drains == [Resolving];
    Machine.RunIsChain(Step, [start, w1, w2, w3], moves);
    Machine.RunAppend(Step, start, moves, [Advances(0), Advances(0), Fails(0), Advances(0)]);
    PassThenFails(w3);
  }

  lemma PassThenFails(w: World)
    requires w.drains == [Resolving] && w.stored != Some(w.tip) && !w.flags.dirty
    ensures var u := Run(w, [Advances(0), Advances(0), Fails(0), Advances(0)]);
            u == w.(drains := [], flags := w.flags.(running := false), passes := u.passes,
                    passesAfterClose := u.passesAfterClose, behind := true)
  {
    var w1 := Step(w, Advances(0));
    assert w1.drains == [Resolved(w.tip)];
    var w2 := Step(w1, Advances(0));
    assert w2.drains == [Passing];
    var w3 := Step(w2, Fails(0));
    assert w3.drains == [Leaving];
    var w4 := Step(w3, Advances(0));
    assert w4.drains == [];
    Machine.RunIsChain(Step, [w, w1, w2, w3, w4], [Advances(0), Advances(0), Fails(0), Advances(0)]);
  }
}
