/** The command handlers, step by step, over the run table and the checkpoint store. */
module Cli {
  import opened Wrappers
  import opened BarrierGraph
  import opened Confluence
  import opened GreenField
  import opened Auth
  import opened RunProtocol
  import opened History
  import opened Agents

  // ---- gates and invocations ------------------------------------------------------

  /** The payload a resumed gate receives; missing keys are `None`. */
  datatype Payload = NotADict | Payload(approved: Option<bool>, approver: Option<string>)

  function GateUpdate(gate: Node, payload: Payload): Update {
    var approved := payload.Payload? && payload.approved == Some(true);
    var approver := if payload.Payload? && payload.approver.Some? then payload.approver.value else "unknown";
    Write(gate, GateDecision(approved, approver), false)
  }

  /** Stages only have run so far, and they have come to `s`. */
  ghost predicate Underway(agent: Agent, from: RunState, events: seq<Update>, s: RunState) {
    MadeBy(agent, from, events) && StagesOnly(events) && Reachable(s) && s == Run(from, events)
  }

  lemma NothingRunYet(agent: Agent, from: RunState)
    requires Reachable(from)
    ensures Underway(agent, from, [], from)
  {
  }

  lemma NothingLeftToRun(agent: Agent, from: RunState, events: seq<Update>, s: RunState)
    requires Underway(agent, from, events, s) && Quiet(s)
    ensures Invoked(from, events) && MadeBy(agent, from, events) && s == Run(from, events)
  {
  }

  // ---- the handlers -----------------------------------------------------------------

  class Orchestrator {
    const directory: Directory
    var rows: map<RunId, Row>
    var order: seq<RunId>
    var threads: map<RunId, RunState>

    function State(): System
      reads this
    {
      System(rows, order, threads)
    }

    ghost predicate Valid()
      reads this
    {
      SystemInv(directory, State())
    }

    constructor (d: Directory)
      ensures Valid() && directory == d && State() == EMPTY
    {
      directory := d;
      rows, order, threads := map[], [], map[];
    }

    // -- the run table --

    method CreateRun(runId: RunId, requirement: string, scenario: string, triggeredBy: string)
      requires runId !in rows
      modifies this`rows, this`order
      ensures rows == old(rows)[runId := Row(requirement, scenario, triggeredBy, Running, None, None)]
      ensures order == old(order) + [runId]
    {
      rows := rows[runId := Row(requirement, scenario, triggeredBy, Running, None, None)];
      order := order + [runId];
    }

    method UpdateRunScenario(runId: RunId, scenario: string)
      modifies this`rows
      ensures rows == if runId in old(rows) then old(rows)[runId := old(rows)[runId].(scenario := scenario)] else old(rows)
    {
      if runId in rows { rows := rows[runId := rows[runId].(scenario := scenario)]; }
    }

    method UpdateRunStatus(runId: RunId, status: Status)
      modifies this`rows
      ensures rows == if runId in old(rows) then old(rows)[runId := old(rows)[runId].(status := status)] else old(rows)
    {
      if runId in rows { rows := rows[runId := rows[runId].(status := status)]; }
    }

    /** Both ways a run ends record who reviewed it and the comment. */
    method EndRun(runId: RunId, status: Status, reviewedBy: string, comment: Option<string>)
      modifies this`rows
      ensures rows == if runId in old(rows)
                      then old(rows)[runId := old(rows)[runId].(status := status, reviewedBy := Some(reviewedBy), comment := comment)]
                      else old(rows)
    {
      if runId in rows {
        rows := rows[runId := rows[runId].(status := status, reviewedBy := Some(reviewedBy), comment := comment)];
      }
    }

    // -- the engine --

    /** One pending node finishes. */
    method FinishNode(ghost from: RunState, ghost events: seq<Update>, s: RunState, w: Update, ghost agent: Agent)
      returns (t: RunState)
      requires MadeBy(agent, from, events) && s == Run(from, events) && Reachable(s)
      requires w.node in s.group && w == Behave(agent)(w.node, s.artifacts)
      ensures MadeBy(agent, from, events + [w]) && t == Run(from, events + [w]) && Reachable(t)
      ensures 0 <= Remaining(t) < Remaining(s)
    {
      t := Finish(Pipeline(), s, w);
      OneMoreEvent(from, events, w);
      FollowsOneMore(Pipeline(), Behave(agent), from, events, w);
      EventUsesUpANode(s, w);
    }

    method PendingStages(s: RunState) returns (ready: set<Node>)
      ensures ready == set n | n in s.group && !IsGate(n)
      ensures ready == {} ==> Quiet(s)
    {
      ready := set n | n in s.group && !IsGate(n);
      forall n | n in s.group ensures IsGate(n) || n in ready {}
    }

    /** Runs one of the pending stages. */
    method RunStage(ghost from: RunState, ghost events: seq<Update>, s: RunState, ready: set<Node>, agent: Agent)
      returns (t: RunState, ghost w: Update)
      requires Underway(agent, from, events, s)
      requires ready == (set n | n in s.group && !IsGate(n)) && ready != {}
      ensures Underway(agent, from, events + [w], t) && 0 <= Remaining(t) < Remaining(s)
    {
      var stage :| stage in ready;
      var (result, schemaChange) := agent(stage, s.artifacts);
      var update := StageUpdate(stage, result, schemaChange);
      t := FinishNode(from, events, s, update, agent);
      w := update;
    }

    /** Runs stages, in any order inside a superstep, until only gates are pending. */
    method Invoke(from: RunState, agent: Agent) returns (s: RunState, ghost events: seq<Update>)
      requires Reachable(from)
      ensures Invoked(from, events) && MadeBy(agent, from, events) && s == Run(from, events)
    {
      s, events := from, [];
      NothingRunYet(agent, from);
      var ready := PendingStages(s);
      while ready != {}
        invariant Underway(agent, from, events, s)
        invariant ready == (set n | n in s.group && !IsGate(n)) && (ready == {} ==> Quiet(s))
        decreases Remaining(s)
      {
        ghost var w;
        s, w := RunStage(from, events, s, ready, agent);
        events := events + [w];
        ready := PendingStages(s);
      }
      NothingLeftToRun(agent, from, events, s);
    }

    /** The status of a paused or finished thread: any interrupted gate will do. */
    method PauseStatus(s: RunState) returns (status: Status)
      ensures Paused(s, status)
    {
      var interrupted := set n | n in s.group && IsGate(n);
      if s.group == {} {
        status := Completed;
      } else if interrupted == {} {
        assert forall n :: n in s.group ==> n !in interrupted;
        status := Awaiting(None);
      } else {
        var gate :| gate in interrupted;
        status := Awaiting(Some(gate));
      }
    }

    // -- the commands --

    /** Create the row, run the pipeline to its first gate, record the status. */
    method LaunchThread(runId: RunId, requirement: string, scenario: string, login: string, agent: Agent)
      returns (status: Status, ghost events: seq<Update>)
      requires runId !in rows
      modifies this
      ensures Invoked(Begin(), events) && MadeBy(agent, Begin(), events) && Paused(Run(Begin(), events), status)
      ensures rows == old(rows)[runId := Row(requirement, scenario, login, status, None, None)]
      ensures order == old(order) + [runId]
      ensures threads == old(threads)[runId := Run(Begin(), events)]
    {
      CreateRun(runId, requirement, "pending", login);
      UpdateRunScenario(runId, scenario);
      BeginReachable();
      var s;
      s, events := Invoke(Begin(), agent);
      threads := threads[runId := s];
      status := PauseStatus(s);
      UpdateRunStatus(runId, status);
    }

    method HandleRun(token: string, requirement: string, runId: RunId, scenario: Option<string>, agent: Agent)
      returns (ghost events: seq<Update>)
      requires Valid()
      modifies this
      ensures Valid()
      ensures Step(directory, old(State()), Launch(token, requirement, runId, scenario, events), State())
      ensures AgentMade(directory, old(State()), Launch(token, requirement, runId, scenario, events), agent)
    {
      events := [];
      var resolved := Resolve(directory, token);
      if resolved.Success? && 10 <= |requirement| <= 2000 && runId !in rows {
        if scenario.None? {
          CreateRun(runId, requirement, "pending", resolved.value.login);
        } else {
          var status;
          status, events := LaunchThread(runId, requirement, scenario.value, resolved.value.login, agent);
          assert LaunchedAs(old(State()), Launch(token, requirement, runId, scenario, events), resolved.value.login, status, State());
        }
      }
      StepKeeps(directory, old(State()), Launch(token, requirement, runId, scenario, events), State());
    }

    /** Resume the interrupted gate with the approval and run on. */
    method Resume(s: RunState, gate: Node, login: string, agent: Agent) returns (t: RunState, ghost events: seq<Update>)
      requires Reachable(s) && gate in s.group
      ensures Invoked(Finish(Pipeline(), s, Approval(gate, login)), events)
      ensures MadeBy(agent, Finish(Pipeline(), s, Approval(gate, login)), events)
      ensures t == Run(Finish(Pipeline(), s, Approval(gate, login)), events)
    {
      FinishReachable(s, Approval(gate, login));
      t, events := Invoke(Finish(Pipeline(), s, GateUpdate(gate, Payload(Some(true), Some(login)))), agent);
    }

    /** Store the thread as an invocation left it, and the status that goes with it. */
    method RecordPause(runId: RunId, t: RunState, login: string, comment: Option<string>) returns (status: Status)
      requires runId in rows
      modifies this`rows, this`threads
      ensures Paused(t, status) && threads == old(threads)[runId := t]
      ensures rows == old(rows)[runId := ResumedRow(old(rows)[runId], t, status, login, comment)]
    {
      threads := threads[runId := t];
      status := PauseStatus(t);
      if t.group == {} {
        EndRun(runId, status, login, comment);
      } else {
        UpdateRunStatus(runId, status);
      }
    }

    /** Resume the waiting gate of a run and record where the pipeline stops next. */
    method ApproveRun(runId: RunId, login: string, comment: Option<string>, agent: Agent)
      returns (ghost events: seq<Update>, ghost gate: Node, status: Status)
      requires runId in rows && runId in threads && Reachable(threads[runId])
      requires rows[runId].status.Awaiting? && rows[runId].status.gate.Some?
      requires rows[runId].status.gate.value in threads[runId].group
      modifies this`rows, this`threads
      ensures gate == old(rows[runId].status.gate.value)
      ensures var s := old(threads[runId]);
              && Invoked(Finish(Pipeline(), s, Approval(gate, login)), events)
              && MadeBy(agent, Finish(Pipeline(), s, Approval(gate, login)), events)
              && var t := Run(Finish(Pipeline(), s, Approval(gate, login)), events);
              && Paused(t, status) && threads == old(threads)[runId := t]
              && rows == old(rows)[runId := ResumedRow(old(rows)[runId], t, status, login, comment)]
    {
      gate := rows[runId].status.gate.value;
      var t;
      t, events := Resume(threads[runId], rows[runId].status.gate.value, login, agent);
      status := RecordPause(runId, t, login, comment);
    }

    method HandleApprove(runId: RunId, token: string, yes: bool, comment: Option<string>, agent: Agent)
      returns (outcome: Result<string, Denial>, ghost events: seq<Update>)
      requires Valid()
      modifies this
      ensures Valid()
      ensures Step(directory, old(State()), Decide(token, runId, yes, comment, events), State())
      ensures AgentMade(directory, old(State()), Decide(token, runId, yes, comment, events), agent)
      ensures outcome == ApprovalCheck(directory, old(State()), runId, token)
    {
      events := [];
      outcome := ApprovalCheck(directory, State(), runId, token);
      if outcome.Success? {
        assert RunInv(directory, State(), runId);
        if !yes {
          EndRun(runId, Rejected, outcome.value, comment);
        } else {
          ghost var gate;
          var status;
          events, gate, status := ApproveRun(runId, outcome.value, comment, agent);
          assert ResumedAs(old(State()), Decide(token, runId, yes, comment, events), outcome.value, gate, status, State());
        }
      }
      StepKeeps(directory, old(State()), Decide(token, runId, yes, comment, events), State());
    }

    /** The loop's test of one pending run. */
    method ReviewOne(row: Row, token: string) returns (listed: bool)
      ensures listed == MayReview(directory, row, token)
    {
      if !row.status.Awaiting? || row.status.gate.None? { return false; }
      var permission := GatePermission(row.status.gate.value);
      if permission.None? { return false; }
      var granted := RequestApproval(directory, permission.value, row.triggeredBy, token);
      return granted.Success?;
    }

    method HandleReview(token: string) returns (approvable: Result<seq<RunId>, Denial>)
      ensures approvable == if Resolve(directory, token).Failure? then Failure(Resolve(directory, token).error)
                            else Success(ReviewList(directory, State(), token))
    {
      var user := Resolve(directory, token);
      if user.Failure? { return Failure(user.error); }
      var table, pending := rows, PendingRuns(rows, order);
      PendingAreWaiting(table, order);
      ghost var all := Reviewed(directory, table, token, pending);
      var found: seq<RunId> := [];
      assert pending[0..] == pending && found + all == all;
      for i := 0 to |pending|
        invariant all == found + Reviewed(directory, table, token, pending[i..])
      {
        ReviewStep(directory, table, token, pending, i, found);
        var listed := ReviewOne(table[pending[i]], token);
        if listed { found := found + [pending[i]]; }
      }
      assert pending[|pending|..] == [] && found + [] == found;
      return Success(found);
    }
  }

  /** One pass through the loop of `review`. */
  lemma ReviewStep(d: Directory, rows: map<RunId, Row>, token: string, pending: seq<RunId>, i: nat, found: seq<RunId>)
    requires i < |pending| && pending[i] in rows
    ensures found + Reviewed(d, rows, token, pending[i..]) ==
              (if MayReview(d, rows[pending[i]], token) then found + [pending[i]] else found)
              + Reviewed(d, rows, token, pending[i + 1..])
  {
    var rest := pending[i..];
    assert rest[0] == pending[i] && rest[1..] == pending[i + 1..];
    var later := Reviewed(d, rows, token, pending[i + 1..]);
    assert found + ([pending[i]] + later) == (found + [pending[i]]) + later;
  }

  lemma OneMoreEvent(from: RunState, events: seq<Update>, w: Update)
    requires CanFinish(from, events) && w.node in Run(from, events).group
    requires Reachable(Run(from, events))
    ensures CanFinish(from, events + [w]) && Run(from, events + [w]) == Finish(Pipeline(), Run(from, events), w)
    ensures Reachable(Finish(Pipeline(), Run(from, events), w))
  {
    ExecuteOne(Pipeline(), Run(from, events), w);
    ExecuteAppend(Pipeline(), from, events, [w]);
    FinishReachable(Run(from, events), w);
  }

  /** Every finished node lowers the number of nodes that can still run. */
  lemma EventUsesUpANode(s: RunState, w: Update)
    requires Reachable(s) && w.node in s.group
    ensures 0 <= Remaining(Finish(Pipeline(), s, w)) < Remaining(s)
  {
    var t := Finish(Pipeline(), s, w);
    FinishReachable(s, w);
    PipelineOrder(t);
    AtMostFourteen(t);
    ReachableInv(s);
    FinishGrows(Pipeline(), Context, Before, s, w);
  }
}
