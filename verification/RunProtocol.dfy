/**
 The command protocol over many runs.  Each run has a row in the business table,
 with a status, and a thread in the checkpoint store, with the graph state.
 Every command is one atomic step; the order in which parallel nodes finish, what
 nodes return and whether planning fails are part of the command.
 */
module RunProtocol {
  import opened Wrappers
  import opened BarrierGraph
  import opened GreenField
  import opened Auth

  type RunId = string

  /** `Awaiting(None)` stands for the status "awaiting:unknown_gate". */
  datatype Status = Running | Awaiting(gate: Option<Node>) | Completed | Rejected

  datatype Row = Row(requirement: string, scenario: string, triggeredBy: string, status: Status,
                     reviewedBy: Option<string>, comment: Option<string>)

  datatype System = System(
    rows: map<RunId, Row>,          // the run table
    order: seq<RunId>,              // run ids by creation time
    threads: map<RunId, RunState>)  // the checkpoint store

  datatype Command =
    | Launch(token: string, requirement: string, runId: RunId, scenario: Option<string>, events: seq<Update>)
    | Decide(token: string, runId: RunId, yes: bool, comment: Option<string>, events: seq<Update>)

  function GatePermission(n: Node): Option<string> {
    match n
    case ArchitectureGate | TestsGate => Some("approve_architecture")
    case SchemaGate => Some("approve_schema_change")
    case PrGate | ReleaseGate => Some("approve_release")
    case _ => None
  }

  // ---- the graph engine, as the commands use it ----------------------------

  /** Nothing can run: every pending node is a gate waiting for its payload. */
  predicate Quiet(s: RunState) {
    forall n :: n in s.group ==> IsGate(n)
  }

  predicate StagesOnly(events: seq<Update>) {
    forall i :: 0 <= i < |events| ==> !IsGate(events[i].node)
  }

  /** `events` is a complete invocation from `s`: stages run until only gates are left. */
  predicate Invoked(s: RunState, events: seq<Update>) {
    CanFinish(s, events) && StagesOnly(events) && Quiet(Run(s, events))
  }

  /** The update of a gate that is resumed with an approval. */
  function Approval(gate: Node, login: string): Update {
    Write(gate, GateDecision(true, login), false)
  }

  /** The status written after an invocation: `completed` when nothing is pending,
      else the gate of the first interrupt found, whichever that is. */
  ghost predicate Paused(s: RunState, status: Status) {
    if s.group == {} then status == Completed
    else if exists n :: n in s.group && IsGate(n)
    then status.Awaiting? && status.gate.Some? && status.gate.value in s.group && IsGate(status.gate.value)
    else status == Awaiting(None)
  }

  // ---- the two commands ------------------------------------------------------

  /** What `approve` checks before it asks for a decision. */
  function ApprovalCheck(d: Directory, sys: System, runId: RunId, token: string): Result<string, Denial> {
    if runId !in sys.rows then Failure(UnknownRun)
    else if !sys.rows[runId].status.Awaiting? then Failure(NotAwaiting)
    else if sys.rows[runId].status.gate.None? || GatePermission(sys.rows[runId].status.gate.value).None? then
      Failure(UnknownGate)
    else
      RequestApproval(d, GatePermission(sys.rows[runId].status.gate.value).value, sys.rows[runId].triggeredBy, token)
  }

  /** A planned run is stored as its first invocation left it. */
  ghost predicate LaunchedAs(sys: System, c: Command, login: string, status: Status, sys': System)
    requires c.Launch? && c.scenario.Some?
  {
    && Invoked(Begin(), c.events) && Paused(Run(Begin(), c.events), status)
    && sys' == System(
      sys.rows[c.runId := Row(c.requirement, c.scenario.value, login, status, None, None)],
      sys.order + [c.runId],
      sys.threads[c.runId := Run(Begin(), c.events)])
  }

  /** `run`: a refused command changes nothing; a run whose planning fails keeps
      the status `running` and gets no thread. */
  ghost predicate Launched(d: Directory, sys: System, c: Command, sys': System)
    requires c.Launch?
  {
    match Resolve(d, c.token)
    case Failure(_) => sys' == sys
    case Success(user) =>
      if |c.requirement| < 10 || |c.requirement| > 2000 || c.runId in sys.rows then sys' == sys
      else if c.scenario.None? then
        sys' == System(
          sys.rows[c.runId := Row(c.requirement, "pending", user.login, Running, None, None)],
          sys.order + [c.runId], sys.threads)
      else
        exists status :: LaunchedAs(sys, c, user.login, status, sys')
  }

  /** The row of a resumed run whose thread has come to `t`. */
  function ResumedRow(row: Row, t: RunState, status: Status, login: string, comment: Option<string>): Row {
    var row' := row.(status := status);
    if t.group == {} then row'.(reviewedBy := Some(login), comment := comment) else row'
  }

  /** A run resumed at `gate` is stored as the invocation left it. */
  ghost predicate ResumedAs(sys: System, c: Command, login: string, gate: Node, status: Status, sys': System)
    requires c.Decide? && c.runId in sys.rows && c.runId in sys.threads
  {
    var s := sys.threads[c.runId];
    && gate in s.group && IsGate(gate)
    && Invoked(Finish(Pipeline(), s, Approval(gate, login)), c.events)
    && var t := Run(Finish(Pipeline(), s, Approval(gate, login)), c.events);
    && Paused(t, status)
    && sys' == sys.(rows := sys.rows[c.runId := ResumedRow(sys.rows[c.runId], t, status, login, c.comment)],
                    threads := sys.threads[c.runId := t])
  }

  /** What an accepted decision does to the row and the thread of its run. */
  ghost predicate Resumed(sys: System, c: Command, login: string, sys': System)
    requires c.Decide? && c.runId in sys.rows && c.runId in sys.threads
  {
    exists gate, status :: ResumedAs(sys, c, login, gate, status, sys')
  }

  /** `approve`: a refused command changes nothing; a rejection touches only the row. */
  ghost predicate Decided(d: Directory, sys: System, c: Command, sys': System)
    requires c.Decide?
  {
    match ApprovalCheck(d, sys, c.runId, c.token)
    case Failure(_) => sys' == sys
    case Success(login) =>
      if !c.yes then
        sys' == sys.(rows := sys.rows[c.runId := sys.rows[c.runId].(
                       status := Rejected, reviewedBy := Some(login), comment := c.comment)])
      else if c.runId !in sys.threads || (forall n :: n in sys.threads[c.runId].group ==> !IsGate(n)) then sys' == sys
      else Resumed(sys, c, login, sys')
  }

  ghost predicate Step(d: Directory, sys: System, c: Command, sys': System) {
    if c.Launch? then Launched(d, sys, c, sys') else Decided(d, sys, c, sys')
  }

  /** The pending query: the rows whose status is `awaiting:…`, oldest first. */
  function PendingRuns(rows: map<RunId, Row>, order: seq<RunId>): seq<RunId> {
    if order == [] then []
    else if order[0] in rows && rows[order[0]].status.Awaiting? then [order[0]] + PendingRuns(rows, order[1..])
    else PendingRuns(rows, order[1..])
  }

  /** What the loop of `review` asks of one pending run: its gate, the permission the
      gate needs, and whether the caller may approve; any refusal is swallowed. */
  predicate MayReview(d: Directory, row: Row, token: string) {
    match row.status
    case Awaiting(Some(gate)) =>
      (match GatePermission(gate)
       case Some(permission) => RequestApproval(d, permission, row.triggeredBy, token).Success?
       case None => false)
    case _ => false
  }

  /** `review`: the pending runs that pass the loop. */
  function Reviewed(d: Directory, rows: map<RunId, Row>, token: string, pending: seq<RunId>): seq<RunId> {
    if pending == [] then []
    else if pending[0] in rows && MayReview(d, rows[pending[0]], token)
    then [pending[0]] + Reviewed(d, rows, token, pending[1..])
    else Reviewed(d, rows, token, pending[1..])
  }

  // ---- one invocation ----------------------------------------------------------

  lemma QuietState(s: RunState)
    requires Reachable(s) && Quiet(s)
    ensures s.finished == []
    ensures s.group == {} || exists gate :: IsGate(gate) && s.group == {gate}
  {
    PipelineOrder(s);
    if gate :| gate in s.group { GateAlone(s, gate); }
  }

  /** A quiet state has one possible status, so taking the first interrupt is not ambiguous. */
  lemma PausedIsUnique(s: RunState, status: Status)
    requires Reachable(s) && Quiet(s)
    ensures Paused(s, status) <==>
              (status == Completed && s.group == {}) ||
              (status.Awaiting? && status.gate.Some? && IsGate(status.gate.value) && s.group == {status.gate.value})
  {
    QuietState(s);
  }

  lemma BeginReachable()
    ensures Reachable(Begin()) && Started(Begin()) == []
  {
    assert Feasible(Pipeline(), Start<Node, Artifact>(Pipeline()), []);
    assert Begin() == Execute(Pipeline(), Start(Pipeline()), []);
  }

  /** A first invocation executes stages only. */
  lemma FirstInvocation(events: seq<Update>)
    requires Invoked(Begin(), events)
    ensures Reachable(Run(Begin(), events)) && ExecutedGates(Run(Begin(), events)) == {}
  {
    var t := Run(Begin(), events);
    BeginReachable();
    ReachableExtends(Begin(), events);
    NothingOverwritten(Begin(), events);
    QuietState(t);
    assert t.executed == Names(events) by { assert Started(t) == t.executed; }
    NoGateNames(events);
  }

  lemma NoGateNames(events: seq<Update>)
    requires StagesOnly(events)
    ensures forall n :: n in Names(events) ==> !IsGate(n)
  {
  }

  lemma FinishReachable(s: RunState, w: Update)
    requires Reachable(s) && w.node in s.group
    ensures Reachable(Finish(Pipeline(), s, w))
  {
    ExecuteOne(Pipeline(), s, w);
    ReachableExtends(s, [w]);
  }

  lemma ResumedGate(s: RunState, w: Update)
    requires Reachable(s) && s.group == {w.node} && s.finished == []
    ensures var t := Finish(Pipeline(), s, w);
            Grew(s, t, [w.node]) && w.node in t.artifacts && t.artifacts[w.node] == w.artifact
  {
    ReachableInv(s);
    FinishGrows(Pipeline(), Context, Before, s, w);
  }

  lemma ResumeRuns(s: RunState, gate: Node, login: string, events: seq<Update>) returns (t: RunState)
    requires Reachable(s) && s.group == {gate} && s.finished == []
    requires Invoked(Finish(Pipeline(), s, Approval(gate, login)), events)
    ensures t == Run(Finish(Pipeline(), s, Approval(gate, login)), events)
    ensures Reachable(t) && Grew(s, t, [gate] + Names(events))
    ensures gate in t.artifacts && t.artifacts[gate] == GateDecision(true, login)
  {
    var s1 := Finish(Pipeline(), s, Approval(gate, login));
    t := Run(s1, events);
    FinishReachable(s, Approval(gate, login));
    ResumedGate(s, Approval(gate, login));
    ReachableExtends(s1, events);
    NothingOverwritten(s1, events);
    GrewTransitive(s, s1, t, [gate], Names(events));
  }

  /** An accepted approval executes its own gate and no other. */
  lemma ResumeAddsOneGate(s: RunState, gate: Node, login: string, events: seq<Update>) returns (t: RunState)
    requires Reachable(s) && Quiet(s) && gate in s.group
    requires Invoked(Finish(Pipeline(), s, Approval(gate, login)), events)
    ensures t == Run(Finish(Pipeline(), s, Approval(gate, login)), events)
    ensures Reachable(t) && Grew(s, t, [gate] + Names(events))
    ensures gate in t.artifacts && t.artifacts[gate] == GateDecision(true, login)
    ensures ExecutedGates(t) == ExecutedGates(s) + {gate} && gate !in ExecutedGates(s)
  {
    QuietState(s);
    t := ResumeRuns(s, gate, login, events);
    NoGateNames(events);
    QuietState(t);
    GatesAdded(s, t, gate, Names(events));
    PipelineOrder(s);
  }

  lemma GatesAdded(s: RunState, t: RunState, gate: Node, stages: seq<Node>)
    requires s.finished == [] && t.finished == [] && IsGate(gate)
    requires Grew(s, t, [gate] + stages) && forall n :: n in stages ==> !IsGate(n)
    ensures ExecutedGates(t) == ExecutedGates(s) + {gate}
  {
    assert Started(s) == s.executed && Started(t) == t.executed;
  }
}
