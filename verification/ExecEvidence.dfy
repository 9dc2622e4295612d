/** The drain loop of `createExecObservingTurn` (`exec-observing-turn.ts`): which commands a turn is observed to have
    run, from the tool calls it started and the outputs that came back. */
module ExecEvidence {
  import opened Json
  import Text

  type Id = string

  const TAIL: nat := 800

  /** `command` is the call's `command` input when it is a string. */
  datatype Call = Call(id: Id, exec: bool, name: string, command: Option<string>)

  datatype Ending = Completed(body: Option<Json>, usage: Option<Json>) | Failure(message: string) | Cancelled

  datatype Event =
    | ToolStarted(call: Call)
    | ToolOutput(id: Id, ok: bool, text: string)
    | Error(message: string)
    | Ended(outcome: Ending)
    | Other

  datatype Command = Command(line: string, ok: bool, tail: string)

  datatype Execution = Execution(commands: seq<Command>, incomplete: seq<Command>)

  datatype Reason = Reported(message: string) | NoStructuredOutput | TurnCancelled | NoTerminalFrame

  datatype TurnResult =
    | Emitted(body: Json, tokens: Option<Json>, execution: Option<Execution>)
    | FailedTurn(reason: Reason)

  function CommandLine(call: Call): string {
    if call.command.Some? && Text.Trim(call.command.value) != "" then call.command.value else call.name
  }

  /** The last characters, where a verdict prints. */
  function Tail(text: string): (r: string)
    ensures |r| <= TAIL && exists k :: 0 <= k <= |text| && r == text[k..] && (k == 0 || |r| == TAIL)
  {
    if |text| <= TAIL then (assert text == text[0..]; text) else text[|text| - TAIL..]
  }

  // ----- what the observations mean -----

  predicate StartsExec(e: Event, id: Id) { e.ToolStarted? && e.call.exec && e.call.id == id }

  predicate IsOutput(e: Event, id: Id) { e.ToolOutput? && e.id == id }

  /** How many exec calls with this id were started. */
  function Starts(events: seq<Event>, id: Id): nat {
    if events == [] then 0
    else Starts(events[..|events| - 1], id) + if StartsExec(events[|events| - 1], id) then 1 else 0
  }

  /** The ids of exec calls, in the order of their first starts. */
  function Order(events: seq<Event>): seq<Id> {
    if events == [] then []
    else
      var before, e := Order(events[..|events| - 1]), events[|events| - 1];
      if e.ToolStarted? && e.call.exec && Starts(events[..|events| - 1], e.call.id) == 0 then before + [e.call.id]
      else before
  }

  /** The command line of the first start. */
  function LineOf(events: seq<Event>, id: Id): string {
    if events == [] then ""
    else if StartsExec(events[|events| - 1], id) && Starts(events[..|events| - 1], id) == 0
    then CommandLine(events[|events| - 1].call)
    else LineOf(events[..|events| - 1], id)
  }

  /** The last output for the id that came after a start of it. */
  function LastOutput(events: seq<Event>, id: Id): Option<Event> {
    if events == [] then None
    else if IsOutput(events[|events| - 1], id) && Starts(events[..|events| - 1], id) > 0 then Some(events[|events| - 1])
    else LastOutput(events[..|events| - 1], id)
  }

  /** The ids started once whose output was seen, or was not. */
  function Select(events: seq<Event>, ids: seq<Id>, paired: bool): seq<Id> {
    if ids == [] then []
    else
      var before, id := Select(events, ids[..|ids| - 1], paired), ids[|ids| - 1];
      if Starts(events, id) == 1 && LastOutput(events, id).Some? == paired then before + [id] else before
  }

  function EvidenceOf(events: seq<Event>, id: Id): Command {
    match LastOutput(events, id)
    case Some(ToolOutput(_, ok, text)) => Command(LineOf(events, id), ok, Tail(text))
    case _ => Command(LineOf(events, id), false, "")
  }

  function Evidence(events: seq<Event>, ids: seq<Id>): (r: seq<Command>)
    ensures |r| == |ids|
  {
    seq(|ids|, i requires 0 <= i < |ids| => EvidenceOf(events, ids[i]))
  }

  function ExecutionOf(events: seq<Event>): Option<Execution> {
    var commands := Evidence(events, Select(events, Order(events), true));
    var incomplete := Evidence(events, Select(events, Order(events), false));
    if commands != [] || incomplete != [] then Some(Execution(commands, incomplete)) else None
  }

  predicate Terminal(e: Event) { e.Error? || e.Ended? }

  /** How a turn ends once its terminal event has arrived after `events`. */
  function Conclude(events: seq<Event>, terminal: Event): TurnResult
    requires Terminal(terminal)
  {
    match terminal
    case Error(message) => FailedTurn(Reported(message))
    case Ended(Completed(Some(body), usage)) => Emitted(body, usage, ExecutionOf(events))
    case Ended(Completed(None, _)) => FailedTurn(NoStructuredOutput)
    case Ended(Failure(message)) => FailedTurn(Reported(message))
    case _ => FailedTurn(TurnCancelled)
  }

  // ----- the drain loop -----

  datatype Record = Record(line: string, ok: bool, tail: string, paired: bool, ambiguous: bool)

  ghost predicate Observed(events: seq<Event>, records: map<Id, Record>, order: seq<Id>) {
    && order == Order(events)
    && (forall id :: id in records <==> id in order)
    && forall id :: id in records ==>
         && records[id].ambiguous == (Starts(events, id) > 1)
         && records[id].paired == LastOutput(events, id).Some?
         && Command(records[id].line, records[id].ok, records[id].tail) == EvidenceOf(events, id)
  }

  predicate Unique(ids: seq<Id>) { forall i, j :: 0 <= i < j < |ids| ==> ids[i] != ids[j] }

  /** Started ids are exactly the ordered ones. */
  lemma {:induction false} OrderIsStarted(events: seq<Event>)
    ensures forall id :: id in Order(events) <==> Starts(events, id) > 0
    ensures Unique(Order(events))
    decreases |events|
  {
    if events != [] { OrderIsStarted(events[..|events| - 1]); }
  }

  lemma {:induction false} NoOutputBeforeStart(events: seq<Event>, id: Id)
    requires Starts(events, id) == 0
    ensures LastOutput(events, id).None? && LineOf(events, id) == ""
    decreases |events|
  {
    if events != [] { NoOutputBeforeStart(events[..|events| - 1], id); }
  }

  method ObserveStart(ghost events: seq<Event>, call: Call, records: map<Id, Record>, order: seq<Id>)
    returns (records': map<Id, Record>, order': seq<Id>)
    requires call.exec && Observed(events, records, order)
    ensures Observed(events + [ToolStarted(call)], records', order')
  {
    ghost var now := events + [ToolStarted(call)];
    assert now[..|events|] == events;
    OrderIsStarted(events);
    if call.id in records {
      return records[call.id := records[call.id].(ambiguous := true)], order;
    }
    NoOutputBeforeStart(events, call.id);
    return records[call.id := Record(CommandLine(call), false, "", false, false)], order + [call.id];
  }

  method ObserveOutput(ghost events: seq<Event>, id: Id, ok: bool, text: string, records: map<Id, Record>,
                       ghost order: seq<Id>)
    returns (records': map<Id, Record>)
    requires Observed(events, records, order)
    ensures Observed(events + [ToolOutput(id, ok, text)], records', order)
  {
    ghost var now := events + [ToolOutput(id, ok, text)];
    assert now[..|events|] == events;
    OrderIsStarted(events);
    records' := records;
    if id in records {
      records' := records[id := records[id].(ok := ok, tail := Tail(text), paired := true)];
    }
  }

  /** One more id selected, or not. */
  lemma SelectNext(events: seq<Event>, ids: seq<Id>, id: Id, paired: bool)
    ensures Evidence(events, Select(events, ids + [id], paired)) ==
              Evidence(events, Select(events, ids, paired)) +
              if Starts(events, id) == 1 && LastOutput(events, id).Some? == paired then [EvidenceOf(events, id)] else []
  {
    assert (ids + [id])[..|ids|] == ids;
  }

  /** Fill `commands` and `incomplete` from the records. */
  method Collect(ghost events: seq<Event>, records: map<Id, Record>, order: seq<Id>)
    returns (execution: Option<Execution>)
    requires Observed(events, records, order)
    ensures execution == ExecutionOf(events)
  {
    var commands: seq<Command>, incomplete: seq<Command> := [], [];
    OrderIsStarted(events);
    for i := 0 to |order|
      invariant commands == Evidence(events, Select(events, order[..i], true))
      invariant incomplete == Evidence(events, Select(events, order[..i], false))
    {
      var record := records[order[i]];
      assert order[..i + 1] == order[..i] + [order[i]];
      SelectNext(events, order[..i], order[i], true);
      SelectNext(events, order[..i], order[i], false);
      if !record.ambiguous {
        var command := Command(record.line, record.ok, record.tail);
        if record.paired { commands := commands + [command]; } else { incomplete := incomplete + [command]; }
      }
    }
    assert order[..|order|] == order;
    return if |commands| > 0 || |incomplete| > 0 then Some(Execution(commands, incomplete)) else None;
  }

  /** One event that does not end the turn. */
  method Observe(ghost events: seq<Event>, e: Event, records: map<Id, Record>, order: seq<Id>)
    returns (records': map<Id, Record>, order': seq<Id>)
    requires !Terminal(e) && Observed(events, records, order)
    ensures Observed(events + [e], records', order')
  {
    records', order' := records, order;
    assert (events + [e])[..|events|] == events;
    match e
    case ToolStarted(call) =>
      if call.exec { records', order' := ObserveStart(events, call, records, order); }
    case ToolOutput(id, ok, text) =>
      records' := ObserveOutput(events, id, ok, text, records, order);
    case _ =>
  }

  /** The event that ends the turn. */
  method Finish(ghost events: seq<Event>, e: Event, records: map<Id, Record>, order: seq<Id>)
    returns (result: TurnResult)
    requires Terminal(e) && Observed(events, records, order)
    ensures result == Conclude(events, e)
  {
    match e
    case Error(message) => return FailedTurn(Reported(message));
    case Ended(Completed(body, usage)) =>
      if body.None? { return FailedTurn(NoStructuredOutput); }
      var execution := Collect(events, records, order);
      return Emitted(body.value, usage, execution);
    case Ended(Failure(message)) => return FailedTurn(Reported(message));
    case Ended(Cancelled) => return FailedTurn(TurnCancelled);
  }

  /** Drain to the first terminal event; the commands reported are those the events before it account for. */
  method RunTurn(events: seq<Event>) returns (result: TurnResult)
    ensures (exists k :: 0 <= k < |events| && Terminal(events[k]) && (forall j :: 0 <= j < k ==> !Terminal(events[j]))
                         && result == Conclude(events[..k], events[k]))
            || ((forall j :: 0 <= j < |events| ==> !Terminal(events[j])) && result == FailedTurn(NoTerminalFrame))
  {
    var records: map<Id, Record> := map[];
    var order: seq<Id> := [];
    for i := 0 to |events|
      invariant forall j :: 0 <= j < i ==> !Terminal(events[j])
      invariant Observed(events[..i], records, order)
    {
      if Terminal(events[i]) {
        result := Finish(events[..i], events[i], records, order);
        return;
      }
      assert events[..i + 1] == events[..i] + [events[i]];
      records, order := Observe(events[..i], events[i], records, order);
    }
    return FailedTurn(NoTerminalFrame);
  }

  // ----- what is reported -----

  lemma {:induction false} SelectMeans(events: seq<Event>, ids: seq<Id>, paired: bool)
    requires Unique(ids)
    ensures forall id :: id in Select(events, ids, paired) <==>
              id in ids && Starts(events, id) == 1 && LastOutput(events, id).Some? == paired
    ensures Unique(Select(events, ids, paired))
    decreases |ids|
  {
    if ids != [] {
      var init := ids[..|ids| - 1];
      SelectMeans(events, init, paired);
      assert ids == init + [ids[|ids| - 1]];
      var s, before := Select(events, ids, paired), Select(events, init, paired);
      assert s == before || s == before + [ids[|init|]];
      forall i, j | 0 <= i < j < |s| ensures s[i] != s[j] {
        if j == |before| {
          assert s[i] in before && s[i] in init;
          var k :| 0 <= k < |init| && init[k] == s[i];
          assert ids[k] != ids[|init|];
        } else {
          assert s[i] == before[i] && s[j] == before[j];
        }
      }
    }
  }

  /** Every exec call id lands in exactly one place: reported as run (started once, output seen), reported as
      incomplete (started once, no output after the start), excluded (started more than once), or never started;
      and in each list it appears once. */
  lemma Partition(events: seq<Event>, id: Id)
    ensures var commands, incomplete := Select(events, Order(events), true), Select(events, Order(events), false);
            && (id in commands <==> Starts(events, id) == 1 && LastOutput(events, id).Some?)
            && (id in incomplete <==> Starts(events, id) == 1 && LastOutput(events, id).None?)
            && (id in Order(events) && id !in commands && id !in incomplete <==> Starts(events, id) > 1)
            && Unique(commands) && Unique(incomplete)
  {
    OrderIsStarted(events);
    SelectMeans(events, Order(events), true);
    SelectMeans(events, Order(events), false);
  }

  /** Nothing is reported exactly when no exec call id was started once. */
  lemma NothingReported(events: seq<Event>)
    ensures ExecutionOf(events).None? <==> forall id :: Starts(events, id) != 1
  {
    forall id ensures Starts(events, id) == 1 ==> ExecutionOf(events).Some? {
      Partition(events, id);
    }
    if ExecutionOf(events).Some? {
      var commands, incomplete := Select(events, Order(events), true), Select(events, Order(events), false);
      var id := if commands != [] then commands[0] else incomplete[0];
      Partition(events, id);
    }
  }

  /** The index of the first start. */
  function FirstStart(events: seq<Event>, id: Id): nat {
    if events == [] || StartsExec(events[0], id) then 0 else 1 + FirstStart(events[1..], id)
  }

  lemma {:induction false} FirstStartMeans(events: seq<Event>, id: Id)
    ensures var k := FirstStart(events, id);
            && k <= |events| && (k < |events| ==> StartsExec(events[k], id))
            && forall j :: 0 <= j < k ==> !StartsExec(events[j], id)
    decreases |events|
  {
    if events != [] && !StartsExec(events[0], id) { FirstStartMeans(events[1..], id); }
  }

  lemma {:induction false} StartsMeans(events: seq<Event>, id: Id)
    ensures Starts(events, id) == 0 <==> forall j :: 0 <= j < |events| ==> !StartsExec(events[j], id)
    decreases |events|
  {
    if events != [] { StartsMeans(events[..|events| - 1], id); }
  }

  lemma FirstStartIs(events: seq<Event>, id: Id, k: nat)
    requires k < |events| && StartsExec(events[k], id) && forall j :: 0 <= j < k ==> !StartsExec(events[j], id)
    ensures FirstStart(events, id) == k
  {
    FirstStartMeans(events, id);
  }

  predicate ByFirstStart(events: seq<Event>, ids: seq<Id>) {
    forall i, j :: 0 <= i < j < |ids| ==> FirstStart(events, ids[i]) < FirstStart(events, ids[j])
  }

  lemma {:induction false} OrderIsByFirstStart(events: seq<Event>)
    ensures ByFirstStart(events, Order(events))
    ensures forall id :: id in Order(events) ==> FirstStart(events, id) < |events|
    decreases |events|
  {
    if events != [] {
      var before, last := events[..|events| - 1], events[|events| - 1];
      OrderIsByFirstStart(before);
      OrderIsStarted(before);
      forall id | id in Order(before) ensures FirstStart(events, id) == FirstStart(before, id) {
        FirstStartMeans(before, id);
        FirstStartIs(events, id, FirstStart(before, id));
      }
      if Order(events) != Order(before) { LastStartIsNew(events); }
    }
  }

  lemma LastStartIsNew(events: seq<Event>)
    requires events != [] && Order(events) != Order(events[..|events| - 1])
    ensures var id := events[|events| - 1].call.id;
            Order(events) == Order(events[..|events| - 1]) + [id] && FirstStart(events, id) == |events| - 1
  {
    NewStartIsFirst(events, events[..|events| - 1], events[|events| - 1].call.id);
  }

  lemma NewStartIsFirst(events: seq<Event>, before: seq<Event>, id: Id)
    requires events != [] && before == events[..|events| - 1]
    requires StartsExec(events[|before|], id) && Starts(before, id) == 0
    ensures FirstStart(events, id) == |before|
  {
    StartsMeans(before, id);
    assert forall j :: 0 <= j < |before| ==> before[j] == events[j];
    FirstStartIs(events, id, |before|);
  }

  lemma {:induction false} SelectKeepsOrder(events: seq<Event>, ids: seq<Id>, paired: bool)
    requires ByFirstStart(events, ids)
    ensures ByFirstStart(events, Select(events, ids, paired))
    ensures forall id :: id in Select(events, ids, paired) ==> id in ids
    decreases |ids|
  {
    if ids != [] {
      var init := ids[..|ids| - 1];
      SelectKeepsOrder(events, init, paired);
      assert ids == init + [ids[|ids| - 1]];
      var s, before := Select(events, ids, paired), Select(events, init, paired);
      forall i, j | 0 <= i < j < |s| ensures FirstStart(events, s[i]) < FirstStart(events, s[j]) {
        if j == |before| {
          assert s[i] in before && s[i] in init;
          var k :| 0 <= k < |init| && init[k] == s[i];
          assert FirstStart(events, ids[k]) < FirstStart(events, ids[|init|]);
        } else {
          assert s[i] == before[i] && s[j] == before[j];
        }
      }
    }
  }

  /** Both lists follow the order of first starts. */
  lemma ReportedInStartOrder(events: seq<Event>, paired: bool)
    ensures ByFirstStart(events, Select(events, Order(events), paired))
  {
    OrderIsByFirstStart(events);
    SelectKeepsOrder(events, Order(events), paired);
  }

  /** Event `k` is an output for the id, after a start of it, and no later event is one. */
  predicate IsLastOutput(events: seq<Event>, id: Id, k: nat) {
    k < |events| && IsOutput(events[k], id) && Starts(events[..k], id) > 0
    && forall j :: k < j < |events| ==> !IsOutput(events[j], id)
  }

  lemma IsLastOutputGrows(events: seq<Event>, e: Event, id: Id, k: nat)
    requires IsLastOutput(events, id, k) && !IsOutput(e, id)
    ensures IsLastOutput(events + [e], id, k)
  {
    assert (events + [e])[..k] == events[..k];
  }

  /** The verdict reported is that of the last output after a start; without one there is none at all. */
  lemma {:induction false} LastOutputMeans(events: seq<Event>, id: Id)
    ensures LastOutput(events, id).Some? ==>
              exists k: nat :: IsLastOutput(events, id, k) && events[k] == LastOutput(events, id).value
    ensures LastOutput(events, id).None? ==>
              forall k :: 0 <= k < |events| && IsOutput(events[k], id) ==> Starts(events[..k], id) == 0
    decreases |events|
  {
    if events != [] {
      var before, last := events[..|events| - 1], events[|events| - 1];
      LastOutputMeans(before, id);
      assert events == before + [last];
      assert forall k :: 0 <= k < |before| ==> before[..k] == events[..k];
      if IsOutput(last, id) && Starts(before, id) > 0 {
        assert IsLastOutput(events, id, |before|);
      } else if LastOutput(before, id).Some? {
        var k: nat :| IsLastOutput(before, id, k) && before[k] == LastOutput(before, id).value;
        StartsGrow(before, id, k, |before|);
        assert before[..|before|] == before;
        IsLastOutputGrows(before, last, id, k);
      }
    }
  }

  lemma {:induction false} StartsGrow(events: seq<Event>, id: Id, a: nat, b: nat)
    requires a <= b <= |events|
    ensures Starts(events[..a], id) <= Starts(events[..b], id)
    decreases b
  {
    if a < b {
      assert events[..b][..b - 1] == events[..b - 1];
      StartsGrow(events, id, a, b - 1);
    }
  }
}
