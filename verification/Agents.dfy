/**
 What the stages of a run return.  Whole command histories are determined by it: the
 order in which parallel stages finish shows nowhere but in the log.
 */
module Agents {
  import opened Wrappers
  import opened BarrierGraph
  import opened Confluence
  import opened GreenField
  import opened Auth
  import opened RunProtocol
  import opened History

  // ---- what stages return ---------------------------------------------------------

  datatype StageResult = StageCompleted(json: string) | StageFailure(error: string)

  /** What a stage returns for the artifacts it was shown, and whether it reports a schema change. */
  type Agent = (Node, map<Node, Artifact>) -> (StageResult, bool)

  /** A failed stage does not stop the run: it leaves an error artifact. */
  function StageUpdate(stage: Node, result: StageResult, schemaChange: bool): Update {
    match result
    case StageCompleted(json) => Write(stage, StageOutput(json), schemaChange)
    case StageFailure(error) => Write(stage, StageFailed(error), schemaChange)
  }

  /** What the stages return, as the executor sees it. */
  function Behave(agent: Agent): Behaviour<Node, Artifact> {
    (stage: Node, artifacts: map<Node, Artifact>) =>
      var (result, schemaChange) := agent(stage, artifacts);
      StageUpdate(stage, result, schemaChange)
  }

  ghost predicate MadeBy(agent: Agent, s: RunState, events: seq<Update>) {
    CanFinish(s, events) && Follows(Pipeline(), Behave(agent), s, events)
  }

  lemma StagesWriteOwnNames(agent: Agent)
    ensures OwnNames(Behave(agent))
  {
    forall n: Node, m: map<Node, Artifact> ensures Behave(agent)(n, m).node == n {
      assert Behave(agent)(n, m) == StageUpdate(n, agent(n, m).0, agent(n, m).1);
    }
  }

  // ---- one invocation -------------------------------------------------------------

  lemma StagesAgree(g: Graph<Node>, context: Node -> map<Node, bool>, before: Node -> set<Node>, f: Behaviour<Node, Artifact>,
                    s: RunState, t: RunState, events: seq<Update>, others: seq<Update>)
    requires Checked(g, context, before) && Inv(g, context, before, s) && Inv(g, context, before, t)
    requires OwnNames(f) && Same(s, t)
    requires Feasible(g, s, events) && Follows(g, f, s, events) && StagesOnly(events) && Quiet(Execute(g, s, events))
    requires Feasible(g, t, others) && Follows(g, f, t, others) && StagesOnly(others) && Quiet(Execute(g, t, others))
    ensures Same(Execute(g, s, events), Execute(g, t, others))
  {
    InvocationsAgree(g, context, before, f, IsGate, s, t, events, others);
  }

  lemma SameEnd(s: RunState, t: RunState, agent: Agent, events: seq<Update>, others: seq<Update>)
    requires Reachable(s) && Reachable(t) && Same(s, t)
    requires Invoked(s, events) && MadeBy(agent, s, events)
    requires Invoked(t, others) && MadeBy(agent, t, others)
    ensures Same(Run(s, events), Run(t, others))
  {
    ReachableInv(s);
    ReachableInv(t);
    PipelineChecked();
    StagesWriteOwnNames(agent);
    StagesAgree(Pipeline(), Context, Before, Behave(agent), s, t, events, others);
  }

  /** Whatever order parallel stages finish in, an invocation of the same stages ends
      with the same pending gate, the same artifacts and answers, and the same status. */
  lemma InvocationIsDeterministic(s: RunState, agent: Agent, events: seq<Update>, others: seq<Update>)
    requires Reachable(s) && Invoked(s, events) && Invoked(s, others)
    requires MadeBy(agent, s, events) && MadeBy(agent, s, others)
    ensures var t, u := Run(s, events), Run(s, others);
            && t.group == u.group && t.barriers == u.barriers && t.taken == u.taken && t.artifacts == u.artifacts
            && multiset(t.executed) == multiset(u.executed)
            && forall status :: Paused(t, status) <==> Paused(u, status)
  {
    SameEnd(s, s, agent, events, others);
    SameStatus(Run(s, events), Run(s, others));
  }

  /** What a stage returned for the artifacts it was shown is what the run keeps of it: its
      text, or its error if it failed, and whether it reported a schema change. */
  lemma RecordedAsReturned(s: RunState, agent: Agent, events: seq<Update>, i: nat)
    requires Reachable(s) && MadeBy(agent, s, events) && i < |events|
    ensures CanFinish(s, events[..i])
    ensures var t, n := Run(s, events), events[i].node;
            var (result, schemaChange) := agent(n, Run(s, events[..i]).artifacts);
            n in t.executed ==>
              && n in t.artifacts && n in t.taken && t.taken[n] == schemaChange
              && t.artifacts[n] == match result
                                   case StageCompleted(json) => StageOutput(json)
                                   case StageFailure(error) => StageFailed(error)
  {
    EventIsReturned(s, agent, events, i);
    EventIsRecorded(s, events, events[i]);
  }

  lemma EventIsReturned(s: RunState, agent: Agent, events: seq<Update>, i: nat)
    requires MadeBy(agent, s, events) && i < |events|
    ensures CanFinish(s, events[..i])
    ensures var n := events[i].node;
            var returned := agent(n, Run(s, events[..i]).artifacts);
            events[i] == StageUpdate(n, returned.0, returned.1)
  {
    FollowsAt(Pipeline(), Behave(agent), s, events, i);
  }

  lemma EventIsRecorded(s: RunState, events: seq<Update>, w: Update)
    requires Reachable(s) && CanFinish(s, events) && w in events
    ensures var t := Run(s, events);
            w.node in t.executed ==>
              w.node in t.artifacts && t.artifacts[w.node] == w.artifact && w.node in t.taken && t.taken[w.node] == w.branch
  {
    ReachableInv(s);
    PipelineChecked();
    EventsLast(Pipeline(), Context, Before, s, events, w);
    ReachableExtends(s, events);
    PipelineOrder(Run(s, events));
    if w in Run(s, events).finished { NotBoth(Run(s, events), w); }
  }

  lemma NotBoth(t: RunState, w: Update)
    requires Ordered(t) && w in t.finished
    ensures w.node !in t.executed
  {
    var i :| 0 <= i < |t.finished| && t.finished[i] == w;
    assert Names(t.finished)[i] == w.node;
  }

  lemma SameStatus(t: RunState, u: RunState)
    requires t.group == u.group
    ensures forall status :: Paused(t, status) <==> Paused(u, status)
  {
  }

  // ---- whole histories --------------------------------------------------------------

  /** The same command, whatever order its stages finish in. */
  predicate SameCommand(c: Command, c': Command) {
    c.(events := []) == c'.(events := [])
  }

  /** The stages that a command runs return what `agent` says. */
  ghost predicate AgentMade(d: Directory, sys: System, c: Command, agent: Agent) {
    if c.Launch? then
      Resolve(d, c.token).Success? && 10 <= |c.requirement| <= 2000 && c.runId !in sys.rows && c.scenario.Some? ==>
        MadeBy(agent, Begin(), c.events)
    else
      forall gate :: Resumes(d, sys, c, gate) ==> MadeBy(agent, Continued(d, sys, c, gate), c.events)
  }

  /** An approval is accepted and finds `gate` waiting. */
  predicate Resumes(d: Directory, sys: System, c: Command, gate: Node)
    requires c.Decide?
  {
    && c.yes && ApprovalCheck(d, sys, c.runId, c.token).Success?
    && c.runId in sys.threads && gate in sys.threads[c.runId].group && IsGate(gate)
  }

  /** The thread as the approved gate leaves it. */
  ghost function Continued(d: Directory, sys: System, c: Command, gate: Node): RunState
    requires c.Decide? && Resumes(d, sys, c, gate)
  {
    Finish(Pipeline(), sys.threads[c.runId], Approval(gate, ApprovalCheck(d, sys, c.runId, c.token).value))
  }

  /** Equal rows, and threads equal up to finishing order. */
  ghost predicate SameSystem(sys: System, other: System) {
    && sys.rows == other.rows && sys.order == other.order
    && (forall id :: id in sys.threads <==> id in other.threads)
    && (forall id :: id in sys.threads ==> Same(sys.threads[id], other.threads[id]))
  }

  lemma SameFirstInvocation(agent: Agent, events: seq<Update>, others: seq<Update>)
    requires Invoked(Begin(), events) && MadeBy(agent, Begin(), events)
    requires Invoked(Begin(), others) && MadeBy(agent, Begin(), others)
    ensures Same(Run(Begin(), events), Run(Begin(), others)) && Reachable(Run(Begin(), events))
  {
    BeginReachable();
    SameEnd(Begin(), Begin(), agent, events, others);
    FirstInvocation(events);
  }

  lemma SameUpdate(sys: System, other: System, id: RunId, row: Row, t: RunState, u: RunState)
    requires SameSystem(sys, other) && Same(t, u)
    ensures SameSystem(sys.(rows := sys.rows[id := row], threads := sys.threads[id := t]),
                       other.(rows := other.rows[id := row], threads := other.threads[id := u]))
  {
  }

  lemma SameRecord(sys: System, other: System, c: Command, c': Command, login: string, status: Status, status': Status,
                   sys': System, other': System)
    requires SameSystem(sys, other) && SameCommand(c, c') && c.Launch? && c.scenario.Some?
    requires LaunchedAs(sys, c, login, status, sys') && LaunchedAs(other, c', login, status', other')
    requires Reachable(Run(Begin(), c.events)) && Quiet(Run(Begin(), c.events))
    requires Same(Run(Begin(), c.events), Run(Begin(), c'.events))
    ensures SameSystem(sys', other')
  {
    var t, u := Run(Begin(), c.events), Run(Begin(), c'.events);
    OneStatus(t, u);
    SameUpdate(sys, other, c.runId, Row(c.requirement, c.scenario.value, login, status, None, None), t, u);
  }

  lemma SameLaunch(d: Directory, sys: System, other: System, c: Command, c': Command, agent: Agent, sys': System, other': System)
    requires SameSystem(sys, other) && SameCommand(c, c') && c.Launch?
    requires Step(d, sys, c, sys') && Step(d, other, c', other')
    requires AgentMade(d, sys, c, agent) && AgentMade(d, other, c', agent)
    ensures SameSystem(sys', other')
  {
    if Resolve(d, c.token).Success? && 10 <= |c.requirement| <= 2000 && c.runId !in sys.rows && c.scenario.Some? {
      var login := Resolve(d, c.token).value.login;
      var status :| LaunchedAs(sys, c, login, status, sys');
      var status' :| LaunchedAs(other, c', login, status', other');
      SameFirstInvocation(agent, c.events, c'.events);
      SameRecord(sys, other, c, c', login, status, status', sys', other');
    }
  }

  /** States at rest with the same pending nodes get the same status. */
  lemma OneStatus(t: RunState, u: RunState)
    requires Reachable(t) && Quiet(t) && t.group == u.group
    ensures forall status, status' :: Paused(t, status) && Paused(u, status') ==> status == status'
  {
    forall status, status' | Paused(t, status) && Paused(u, status') ensures status == status' {
      SameStatus(t, u);
      PausedIsUnique(t, status);
      PausedIsUnique(t, status');
    }
  }

  /** Two threads, equal up to finishing order, after the same approval and the same stages. */
  lemma SameThread(s: RunState, t: RunState, gate: Node, login: string, agent: Agent, events: seq<Update>, others: seq<Update>)
    requires Reachable(s) && Reachable(t) && Same(s, t) && gate in s.group
    requires var from := Finish(Pipeline(), s, Approval(gate, login)); Invoked(from, events) && MadeBy(agent, from, events)
    requires var from := Finish(Pipeline(), t, Approval(gate, login)); Invoked(from, others) && MadeBy(agent, from, others)
    ensures var s', t' := Run(Finish(Pipeline(), s, Approval(gate, login)), events),
                          Run(Finish(Pipeline(), t, Approval(gate, login)), others);
            Same(s', t') && Reachable(s')
  {
    var w := Approval(gate, login);
    FinishReachable(s, w);
    FinishReachable(t, w);
    ReachableInv(s);
    FinishSame(Pipeline(), Context, Before, s, t, w);
    SameEnd(Finish(Pipeline(), s, w), Finish(Pipeline(), t, w), agent, events, others);
    ReachableExtends(Finish(Pipeline(), s, w), events);
  }

  lemma SameApproval(d: Directory, sys: System, other: System, c: Command, c': Command)
    requires SameSystem(sys, other) && SameCommand(c, c') && c.Decide?
    ensures ApprovalCheck(d, sys, c.runId, c.token) == ApprovalCheck(d, other, c'.runId, c'.token)
  {
  }

  /** The one gate an approved run waits at. */
  lemma WaitingGate(d: Directory, sys: System, id: RunId, token: string) returns (gate: Node)
    requires SystemInv(d, sys) && ApprovalCheck(d, sys, id, token).Success?
    ensures id in sys.rows && id in sys.threads && Reachable(sys.threads[id])
    ensures IsGate(gate) && sys.threads[id].group == {gate}
  {
    assert RunInv(d, sys, id);
    gate := sys.rows[id].status.gate.value;
  }

  lemma SameResume(d: Directory, sys: System, other: System, c: Command, c': Command, agent: Agent,
                   login: string, gate: Node, sys': System, other': System)
    requires SameSystem(sys, other) && SameCommand(c, c') && c.Decide? && c.yes
    requires ApprovalCheck(d, sys, c.runId, c.token) == Success(login) == ApprovalCheck(d, other, c.runId, c.token)
    requires c.runId in sys.rows && c.runId in sys.threads
    requires Reachable(sys.threads[c.runId]) && Reachable(other.threads[c.runId])
    requires IsGate(gate) && sys.threads[c.runId].group == {gate}
    requires Resumed(sys, c, login, sys') && Resumed(other, c', login, other')
    requires AgentMade(d, sys, c, agent) && AgentMade(d, other, c', agent)
    ensures SameSystem(sys', other')
  {
    var status :| ResumedAs(sys, c, login, gate, status, sys');
    var status' :| ResumedAs(other, c', login, gate, status', other');
    assert Resumes(d, sys, c, gate) && Resumes(d, other, c', gate);
    var t, u := sys'.threads[c.runId], other'.threads[c.runId];
    SameThread(sys.threads[c.runId], other.threads[c.runId], gate, login, agent, c.events, c'.events);
    OneStatus(t, u);
    SameUpdate(sys, other, c.runId, ResumedRow(sys.rows[c.runId], t, status, login, c.comment), t, u);
  }

  lemma SameStep(d: Directory, sys: System, other: System, c: Command, c': Command, agent: Agent, sys': System, other': System)
    requires SystemInv(d, sys) && SystemInv(d, other) && SameSystem(sys, other) && SameCommand(c, c')
    requires Step(d, sys, c, sys') && Step(d, other, c', other')
    requires AgentMade(d, sys, c, agent) && AgentMade(d, other, c', agent)
    ensures SameSystem(sys', other')
  {
    if c.Launch? {
      SameLaunch(d, sys, other, c, c', agent, sys', other');
    } else {
      SameApproval(d, sys, other, c, c');
      var check := ApprovalCheck(d, sys, c.runId, c.token);
      if check.Success? && c.yes && Resumed(sys, c, check.value, sys') {
        var gate := WaitingGate(d, sys, c.runId, c.token);
        var same := WaitingGate(d, other, c.runId, c.token);
        SameResume(d, sys, other, c, c', agent, check.value, gate, sys', other');
      }
    }
  }

  /** A history in which the stages run by command `k` return what `agents[k]` says. */
  ghost predicate PlayedBy(d: Directory, trace: seq<System>, commands: seq<Command>, agents: seq<Agent>) {
    && IsHistory(d, trace, commands) && |agents| == |commands|
    && forall k :: 0 <= k < |commands| ==> AgentMade(d, trace[k], commands[k], agents[k])
  }

  /** Two histories of the same commands and the same agents agree after every command:
      equal rows, equal creation order, and threads equal up to finishing order. */
  lemma {:induction false} HistoriesAgree(d: Directory, trace: seq<System>, other: seq<System>, commands: seq<Command>,
                                          commands': seq<Command>, agents: seq<Agent>, k: nat)
    requires PlayedBy(d, trace, commands, agents) && PlayedBy(d, other, commands', agents) && k < |trace|
    requires forall i :: 0 <= i < |commands| ==> SameCommand(commands[i], commands'[i])
    ensures SameSystem(trace[k], other[k])
  {
    if k > 0 {
      HistoriesAgree(d, trace, other, commands, commands', agents, k - 1);
      HistoryKeeps(d, trace, commands, k - 1);
      HistoryKeeps(d, other, commands', k - 1);
      StepAt(d, trace, commands, k - 1);
      StepAt(d, other, commands', k - 1);
      SameStep(d, trace[k - 1], other[k - 1], commands[k - 1], commands'[k - 1], agents[k - 1], trace[k], other[k]);
    }
  }
}
