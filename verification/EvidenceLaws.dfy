/** What an execution report says, told by the positions of the turn's events alone: which calls it lists as run and
    which as unfinished, in what order, and with what line, verdict and tail. */
module EvidenceLaws {
  import opened Json
  import opened ExecEvidence
  import Text

  /** Event `k` starts an exec call, and no other event starts one with its id. */
  predicate IsOnlyStart(events: seq<Event>, k: nat) {
    && k < |events| && events[k].ToolStarted? && events[k].call.exec
    && forall j :: 0 <= j < |events| && j != k ==> !StartsExec(events[j], events[k].call.id)
  }

  /** An output for the call that event `k` starts comes after it. */
  predicate IsAnswered(events: seq<Event>, k: nat)
    requires k < |events| && events[k].ToolStarted?
  {
    exists j :: k < j < |events| && IsOutput(events[j], events[k].call.id)
  }

  predicate IsBlank(s: string) { forall i :: 0 <= i < |s| ==> Text.IsSpace(s[i]) }

  /** A command line is the call's own unless that is blank. */
  predicate IsLine(line: string, call: Call) {
    line == if call.command.Some? && !IsBlank(call.command.value) then call.command.value else call.name
  }

  predicate IsTail(tail: string, text: string) {
    if |text| <= 800 then tail == text else |tail| == 800 && text[|text| - 800..] == tail
  }

  /** Event `j` is the last output for the call that event `k` starts. */
  predicate Settles(events: seq<Event>, k: nat, j: nat) {
    && k < j < |events| && events[k].ToolStarted? && IsOutput(events[j], events[k].call.id)
    && forall l :: j < l < |events| ==> !IsOutput(events[l], events[k].call.id)
  }

  /** `c` is the evidence for the call that event `k` starts: its line, and the verdict and tail of its last output,
      or a bare failure without one. */
  predicate IsEvidence(c: Command, events: seq<Event>, k: nat) {
    && k < |events| && events[k].ToolStarted? && IsLine(c.line, events[k].call)
    && (if IsAnswered(events, k)
        then exists j :: 0 <= j < |events| && Settles(events, k, j)
                         && c.ok == events[j].ok && IsTail(c.tail, events[j].text)
        else !c.ok && c.tail == "")
  }

  predicate Increasing(ks: seq<nat>) { forall i, j :: 0 <= i < j < |ks| ==> ks[i] < ks[j] }

  /** The calls started exactly once whose output followed, or did not, each with its evidence, in start order. */
  ghost predicate Lists(commands: seq<Command>, events: seq<Event>, answered: bool) {
    exists ks: seq<nat> :: IsListing(ks, commands, events, answered)
  }

  ghost predicate IsListing(ks: seq<nat>, commands: seq<Command>, events: seq<Event>, answered: bool) {
    && Increasing(ks) && |ks| == |commands|
    && (forall k: nat :: k in ks <==> IsOnlyStart(events, k) && IsAnswered(events, k) == answered)
    && forall i :: 0 <= i < |ks| ==> IsEvidence(commands[i], events, ks[i])
  }

  // ----- one call -----

  lemma BlankTrimsAway(s: string)
    ensures Text.Trim(s) == "" <==> IsBlank(s)
  {
    StartTrimsAway(s);
    EndTrimsAway(Text.TrimStart(s));
  }

  lemma {:induction false} StartTrimsAway(s: string)
    ensures IsBlank(Text.TrimStart(s)) <==> IsBlank(s)
  {
    if s != "" && Text.IsSpace(s[0]) {
      StartTrimsAway(s[1..]);
      assert s == [s[0]] + s[1..];
    }
  }

  lemma {:induction false} EndTrimsAway(s: string)
    ensures Text.TrimEnd(s) == "" <==> IsBlank(s)
  {
    if s != "" && Text.IsSpace(s[|s| - 1]) {
      EndTrimsAway(s[..|s| - 1]);
      assert s == s[..|s| - 1] + [s[|s| - 1]];
    }
  }

  lemma {:induction false} StartedOnce(events: seq<Event>, id: Id)
    ensures Starts(events, id) == 1 <==> exists k: nat :: IsOnlyStartOf(events, id, k)
    ensures Starts(events, id) == 1 ==> IsOnlyStartOf(events, id, FirstStart(events, id))
    decreases |events|
  {
    if events != [] {
      var before, last := events[..|events| - 1], events[|events| - 1];
      StartedOnce(before, id);
      StartsMeans(before, id);
      StartsMeans(events, id);
      FirstStartMeans(events, id);
      assert forall j :: 0 <= j < |before| ==> before[j] == events[j];
      if Starts(events, id) == 1 {
        var k := if StartsExec(last, id) then |before| else FirstStart(before, id);
        assert IsOnlyStartOf(events, id, k);
        FirstStartIs(events, id, k);
      }
      if k: nat :| IsOnlyStartOf(events, id, k) {
        if k < |before| { assert IsOnlyStartOf(before, id, k); }
      }
    }
  }

  predicate IsOnlyStartOf(events: seq<Event>, id: Id, k: nat) {
    && k < |events| && StartsExec(events[k], id)
    && forall j :: 0 <= j < |events| && j != k ==> !StartsExec(events[j], id)
  }

  lemma {:induction false} LineIsOfTheStart(events: seq<Event>, id: Id, k: nat)
    requires IsOnlyStartOf(events, id, k)
    ensures LineOf(events, id) == CommandLine(events[k].call)
    decreases |events|
  {
    var before := events[..|events| - 1];
    StartsMeans(before, id);
    if k < |before| {
      assert forall j :: 0 <= j < |before| ==> before[j] == events[j];
      LineIsOfTheStart(before, id, k);
    }
  }

  lemma StartedBefore(events: seq<Event>, id: Id, k: nat, j: nat)
    requires IsOnlyStartOf(events, id, k) && j <= |events|
    ensures Starts(events[..j], id) > 0 <==> k < j
  {
    StartsMeans(events[..j], id);
    if k < j { assert events[..j][k] == events[k]; }
  }

  /** The output reported for a call started once is the last one after its start. */
  lemma OutputIsTheLast(events: seq<Event>, id: Id, k: nat)
    requires IsOnlyStartOf(events, id, k)
    ensures LastOutput(events, id).Some? <==> IsAnswered(events, k)
    ensures LastOutput(events, id).Some? ==>
              exists j :: 0 <= j < |events| && Settles(events, k, j) && events[j] == LastOutput(events, id).value
  {
    LastOutputMeans(events, id);
    forall j: nat | j <= |events| { StartedBefore(events, id, k, j); }
    if LastOutput(events, id).Some? {
      var j: nat :| IsLastOutput(events, id, j) && events[j] == LastOutput(events, id).value;
      assert Settles(events, k, j);
    }
  }

  lemma EvidenceIs(events: seq<Event>, id: Id, k: nat)
    requires IsOnlyStartOf(events, id, k)
    ensures IsEvidence(EvidenceOf(events, id), events, k)
  {
    var call := events[k].call;
    LineIsOfTheStart(events, id, k);
    OutputIsTheLast(events, id, k);
    if call.command.Some? { BlankTrimsAway(call.command.value); }
  }

  // ----- the lists -----

  lemma SelectedAt(events: seq<Event>, paired: bool, k: nat)
    ensures IsOnlyStart(events, k) && IsAnswered(events, k) == paired <==>
              k < |events| && events[k].ToolStarted?
              && events[k].call.id in Select(events, Order(events), paired)
              && FirstStart(events, events[k].call.id) == k && events[k].call.exec
  {
    if k < |events| && events[k].ToolStarted? {
      var id := events[k].call.id;
      Partition(events, id);
      StartedOnce(events, id);
      if IsOnlyStart(events, k) {
        assert IsOnlyStartOf(events, id, k);
        FirstStartIs(events, id, k);
        OutputIsTheLast(events, id, k);
      }
    }
  }

  lemma SelectedIs(events: seq<Event>, paired: bool, id: Id)
    requires id in Select(events, Order(events), paired)
    ensures var k := FirstStart(events, id);
            IsOnlyStartOf(events, id, k) && IsOnlyStart(events, k) && IsAnswered(events, k) == paired
  {
    Partition(events, id);
    StartedOnce(events, id);
    OutputIsTheLast(events, id, FirstStart(events, id));
  }

  lemma SelectIsListing(events: seq<Event>, paired: bool)
    ensures Lists(Evidence(events, Select(events, Order(events), paired)), events, paired)
  {
    var ids := Select(events, Order(events), paired);
    var commands := Evidence(events, ids);
    ReportedInStartOrder(events, paired);
    var ks: seq<nat> := seq(|ids|, i requires 0 <= i < |ids| => FirstStart(events, ids[i]));
    forall i | 0 <= i < |ks|
      ensures IsOnlyStart(events, ks[i]) && IsAnswered(events, ks[i]) == paired
      ensures IsEvidence(commands[i], events, ks[i])
    {
      SelectedIs(events, paired, ids[i]);
      EvidenceIs(events, ids[i], ks[i]);
    }
    forall k: nat ensures k in ks <==> IsOnlyStart(events, k) && IsAnswered(events, k) == paired {
      SelectedAt(events, paired, k);
      if IsOnlyStart(events, k) && IsAnswered(events, k) == paired {
        var i :| 0 <= i < |ids| && ids[i] == events[k].call.id;
        assert ks[i] == k;
      }
    }
    assert IsListing(ks, commands, events, paired);
  }

  /** A report lists the calls started exactly once, those with an output after the start as run and the others as
      incomplete, each list in start order and each call with its own evidence; without a report there are none. */
  lemma ReportIsExact(events: seq<Event>)
    ensures match ExecutionOf(events)
            case Some(Execution(commands, incomplete)) =>
              && Lists(commands, events, true) && Lists(incomplete, events, false)
              && commands + incomplete != []
            case None => forall k: nat :: !IsOnlyStart(events, k)
  {
    SelectIsListing(events, true);
    SelectIsListing(events, false);
    if ExecutionOf(events).None? {
      forall k: nat ensures !IsOnlyStart(events, k) {
        SelectedAt(events, true, k);
        SelectedAt(events, false, k);
      }
    }
  }

  /** A body is emitted exactly when the turn completed with one, with that completion's usage and report; every other
      end is a failure with its own reason. */
  lemma ConcludesIff(events: seq<Event>, terminal: Event, body: Json, tokens: Option<Json>, message: string)
    requires Terminal(terminal)
    ensures var result := Conclude(events, terminal);
            && (terminal == Ended(Completed(Some(body), tokens)) <==>
                  result.Emitted? && result.body == body && result.tokens == tokens)
            && (result.Emitted? ==> result.execution == ExecutionOf(events))
            && (result == FailedTurn(Reported(message)) <==>
                  terminal == Error(message) || terminal == Ended(Failure(message)))
            && (result == FailedTurn(NoStructuredOutput) <==>
                  terminal.Ended? && terminal.outcome.Completed? && terminal.outcome.body.None?)
            && (result == FailedTurn(TurnCancelled) <==> terminal == Ended(Cancelled))
            && result != FailedTurn(NoTerminalFrame)
  {
  }
}
