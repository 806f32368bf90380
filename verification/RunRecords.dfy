/**
 What the run table and the recorded gates say about the commands that were given: who
 launched a run, who approved each gate, who rejected or completed it.
 */
module RunRecords {
  import opened Wrappers
  import opened BarrierGraph
  import opened GreenField
  import opened Auth
  import opened RunProtocol
  import opened History

  // ---- who may decide -----------------------------------------------------------

  /** The run waits at `gate`, and the token stands for someone other than its trigger
      user whose role or ancestor owns the permission the gate needs. */
  ghost predicate MayDecide(d: Directory, sys: System, id: RunId, token: string, gate: Node) {
    && id in sys.rows && sys.rows[id].status == Awaiting(Some(gate)) && IsGate(gate)
    && Known(d, token) && d.users[token].login != sys.rows[id].triggeredBy
    && Owns(d.roles, d.users[token].role,
            if gate == PrGate || gate == ReleaseGate then "approve_release"
            else if gate == SchemaGate then "approve_schema_change" else "approve_architecture")
  }

  lemma ApprovalCheckIff(d: Directory, sys: System, id: RunId, token: string, login: string)
    ensures ApprovalCheck(d, sys, id, token) == Success(login) <==>
              exists gate :: MayDecide(d, sys, id, token, gate) && login == d.users[token].login
    ensures ApprovalCheck(d, sys, id, token) == Failure(UnknownRun) <==> id !in sys.rows
    ensures ApprovalCheck(d, sys, id, token) == Failure(NotAwaiting) <==> id in sys.rows && !sys.rows[id].status.Awaiting?
  {
    if id in sys.rows && sys.rows[id].status.Awaiting? && sys.rows[id].status.gate.Some? {
      var gate := sys.rows[id].status.gate.value;
      if GatePermission(gate).Some? {
        ApprovalIff(d, GatePermission(gate).value, sys.rows[id].triggeredBy, token, login);
      }
      assert ApprovalCheck(d, sys, id, token) == Success(login) ==> MayDecide(d, sys, id, token, gate);
    }
  }

  /** The command decides the run, and its checks let it. */
  ghost predicate Decides(d: Directory, sys: System, c: Command, id: RunId, gate: Node) {
    c.Decide? && c.runId == id && MayDecide(d, sys, id, c.token, gate)
  }

  lemma DecidesPasses(d: Directory, sys: System, c: Command, id: RunId, gate: Node)
    requires Decides(d, sys, c, id, gate)
    ensures ApprovalCheck(d, sys, id, c.token) == Success(d.users[c.token].login)
  {
    ApprovalCheckIff(d, sys, id, c.token, d.users[c.token].login);
  }

  // ---- who launched a run ----------------------------------------------------------

  /** A launch of `id` by a known user, with a requirement of legal length. */
  ghost predicate GoodLaunch(d: Directory, c: Command, id: RunId) {
    c.Launch? && c.runId == id && Known(d, c.token) && 10 <= |c.requirement| <= 2000
  }

  /** Command `j` is the first good launch of `id`. */
  ghost predicate LaunchedAt(d: Directory, commands: seq<Command>, id: RunId, j: nat) {
    j < |commands| && GoodLaunch(d, commands[j], id) && forall i :: 0 <= i < j ==> !GoodLaunch(d, commands[i], id)
  }

  /** The row says who launched the run and what for. */
  ghost predicate RowOf(d: Directory, c: Command, row: Row) {
    && c.Launch? && c.token in d.users && row.triggeredBy == d.users[c.token].login
    && row.requirement == c.requirement
    && row.scenario == if c.scenario.Some? then c.scenario.value else "pending"
  }

  ghost predicate SameOrigin(row: Row, row': Row) {
    row'.requirement == row.requirement && row'.scenario == row.scenario && row'.triggeredBy == row.triggeredBy
  }

  lemma LaunchStep(d: Directory, sys: System, c: Command, sys': System)
    requires Step(d, sys, c, sys') && c.Launch?
    ensures c.runId in sys'.rows <==> c.runId in sys.rows || GoodLaunch(d, c, c.runId)
    ensures c.runId in sys'.rows && c.runId !in sys.rows ==> RowOf(d, c, sys'.rows[c.runId])
    ensures c.runId in sys.rows ==> sys'.rows[c.runId] == sys.rows[c.runId]
  {
    ResolveIff(d, c.token, if Resolve(d, c.token).Success? then Resolve(d, c.token).value else User("", "", [], 0));
  }

  lemma DecideStep(d: Directory, sys: System, c: Command, sys': System)
    requires SystemInv(d, sys) && Step(d, sys, c, sys') && c.Decide?
    ensures c.runId in sys'.rows <==> c.runId in sys.rows
    ensures c.runId in sys.rows ==> SameOrigin(sys.rows[c.runId], sys'.rows[c.runId])
  {
    var check := ApprovalCheck(d, sys, c.runId, c.token);
    if check.Success? && c.yes {
      assert RunInv(d, sys, c.runId);
      var gate, status :| ResumedAs(sys, c, check.value, gate, status, sys');
    }
  }

  lemma OriginStep(d: Directory, sys: System, c: Command, sys': System, id: RunId)
    requires SystemInv(d, sys) && Step(d, sys, c, sys')
    ensures id in sys'.rows <==> id in sys.rows || GoodLaunch(d, c, id)
    ensures id in sys'.rows && id !in sys.rows ==> RowOf(d, c, sys'.rows[id])
    ensures id in sys.rows ==> SameOrigin(sys.rows[id], sys'.rows[id])
  {
    if c.runId != id {
      OthersUntouched(d, sys, c, sys', id);
    } else if c.Launch? {
      LaunchStep(d, sys, c, sys');
    } else {
      DecideStep(d, sys, c, sys');
    }
  }

  /** A good launch is the first of its run exactly if no earlier one is. */
  lemma {:induction false} FirstAt(d: Directory, commands: seq<Command>, id: RunId, k: nat)
    requires k < |commands|
    ensures LaunchedAt(d, commands, id, k) <==>
              GoodLaunch(d, commands[k], id) && forall j: nat :: j < k ==> !LaunchedAt(d, commands, id, j)
  {
    if GoodLaunch(d, commands[k], id) && !LaunchedAt(d, commands, id, k) {
      var i :| 0 <= i < k && GoodLaunch(d, commands[i], id);
      FirstAt(d, commands, id, i);
    }
  }

  /** The run exists exactly if one of the first `k` commands launched it, and its row
      says which. */
  ghost predicate RowRecord(d: Directory, commands: seq<Command>, k: nat, id: RunId, rows: map<RunId, Row>) {
    && (id in rows <==> exists j: nat :: j < k && LaunchedAt(d, commands, id, j))
    && (forall j: nat :: j < k && LaunchedAt(d, commands, id, j) ==> id in rows && RowOf(d, commands[j], rows[id]))
  }

  /** A run exists exactly if someone launched it, and its row names the first user who
      did, with that command's requirement and scenario, for good. */
  lemma {:induction false} RowsAreLaunches(d: Directory, trace: seq<System>, commands: seq<Command>, k: nat, id: RunId)
    requires IsHistory(d, trace, commands) && k < |trace|
    ensures RowRecord(d, commands, k, id, trace[k].rows)
  {
    if k > 0 {
      RowsAreLaunches(d, trace, commands, k - 1, id);
      RowRecordStep(d, trace, commands, k - 1, id);
    }
  }

  lemma RowRecordStep(d: Directory, trace: seq<System>, commands: seq<Command>, k: nat, id: RunId)
    requires IsHistory(d, trace, commands) && k < |commands| && |trace| == |commands| + 1
    requires RowRecord(d, commands, k, id, trace[k].rows)
    ensures RowRecord(d, commands, k + 1, id, trace[k + 1].rows)
  {
    HistoryKeeps(d, trace, commands, k);
    StepAt(d, trace, commands, k);
    OriginStep(d, trace[k], commands[k], trace[k + 1], id);
    RowsGrow(d, commands, k, id, trace[k].rows, trace[k + 1].rows);
  }

  lemma RowsGrow(d: Directory, commands: seq<Command>, k: nat, id: RunId, rows: map<RunId, Row>, rows': map<RunId, Row>)
    requires k < |commands| && RowRecord(d, commands, k, id, rows)
    requires id in rows' <==> id in rows || GoodLaunch(d, commands[k], id)
    requires id in rows' && id !in rows ==> RowOf(d, commands[k], rows'[id])
    requires id in rows ==> SameOrigin(rows[id], rows'[id])
    ensures RowRecord(d, commands, k + 1, id, rows')
  {
    FirstAt(d, commands, id, k);
  }

  // ---- who approved a gate ------------------------------------------------------------

  /** The one gate at which a run that may be decided waits. */
  lemma WaitsAt(d: Directory, sys: System, id: RunId, token: string, gate: Node)
    requires SystemInv(d, sys) && MayDecide(d, sys, id, token, gate)
    ensures id in sys.threads && InStep(d, sys.rows[id], sys.threads[id]) && sys.threads[id].group == {gate}
  {
    assert RunInv(d, sys, id);
  }

  /** An accepted approval resumes the run at its gate, under the approver's login. */
  lemma ApprovalStep(d: Directory, sys: System, c: Command, sys': System, id: RunId, gate: Node) returns (status: Status)
    requires SystemInv(d, sys) && Step(d, sys, c, sys') && Decides(d, sys, c, id, gate) && c.yes
    ensures id in sys.threads && InStep(d, sys.rows[id], sys.threads[id]) && sys.threads[id].group == {gate}
    ensures ResumedAs(sys, c, d.users[c.token].login, gate, status, sys')
  {
    DecidesPasses(d, sys, c, id, gate);
    WaitsAt(d, sys, id, c.token, gate);
    AcceptedResumes(d, sys, c, d.users[c.token].login, sys', gate);
    status := ResumedThere(sys, c, d.users[c.token].login, sys', gate);
  }

  lemma AcceptedResumes(d: Directory, sys: System, c: Command, login: string, sys': System, gate: Node)
    requires Step(d, sys, c, sys') && c.Decide? && c.yes && ApprovalCheck(d, sys, c.runId, c.token) == Success(login)
    requires c.runId in sys.rows && c.runId in sys.threads && gate in sys.threads[c.runId].group && IsGate(gate)
    ensures Resumed(sys, c, login, sys')
  {
  }

  lemma ResumedThere(sys: System, c: Command, login: string, sys': System, gate: Node) returns (status: Status)
    requires c.Decide? && c.runId in sys.rows && c.runId in sys.threads && Resumed(sys, c, login, sys')
    requires sys.threads[c.runId].group == {gate}
    ensures ResumedAs(sys, c, login, gate, status, sys')
  {
    var g;
    g, status :| ResumedAs(sys, c, login, g, status, sys');
  }

  /** Of two artifact tables the second has one more gate, approved by `login`. */
  ghost predicate OneMoreApproval(was: map<Node, Artifact>, now: map<Node, Artifact>, gate: Node, login: string) {
    && gate !in was && gate in now && now[gate] == GateDecision(true, login)
    && forall g :: IsGate(g) && g != gate ==> (g in now <==> g in was) && (g in now ==> now[g] == was[g])
  }

  lemma ApprovedThread(s: RunState, gate: Node, login: string, events: seq<Update>)
    requires Reachable(s) && Quiet(s) && gate in s.group
    requires Invoked(Finish(Pipeline(), s, Approval(gate, login)), events)
    ensures var t := Run(Finish(Pipeline(), s, Approval(gate, login)), events);
            Reachable(t) && OneMoreApproval(s.artifacts, t.artifacts, gate, login)
  {
    var t := ResumeAddsOneGate(s, gate, login, events);
    PipelineOrder(s);
    PipelineOrder(t);
    forall g | IsGate(g) ensures g in s.artifacts <==> g in ExecutedGates(s) {}
    forall g | IsGate(g) ensures g in t.artifacts <==> g in ExecutedGates(t) {}
  }

  /** The artifacts of a run, none if it has no thread. */
  function ArtifactsOf(sys: System, id: RunId): map<Node, Artifact> {
    if id in sys.threads then sys.threads[id].artifacts else map[]
  }

  lemma ApprovalRecords(d: Directory, sys: System, c: Command, sys': System, id: RunId, gate: Node)
    requires SystemInv(d, sys) && Step(d, sys, c, sys') && Decides(d, sys, c, id, gate) && c.yes
    ensures OneMoreApproval(ArtifactsOf(sys, id), ArtifactsOf(sys', id), gate, d.users[c.token].login)
  {
    var status := ApprovalStep(d, sys, c, sys', id, gate);
    ApprovedThread(sys.threads[id], gate, d.users[c.token].login, c.events);
  }

  /** Any other command leaves the gates of a run as they are. */
  lemma OtherwiseSameGates(d: Directory, sys: System, c: Command, sys': System, id: RunId, g: Node)
    requires SystemInv(d, sys) && Step(d, sys, c, sys') && IsGate(g)
    requires forall gate :: !(Decides(d, sys, c, id, gate) && c.yes)
    ensures g in ArtifactsOf(sys', id) <==> g in ArtifactsOf(sys, id)
    ensures g in ArtifactsOf(sys, id) ==> ArtifactsOf(sys', id)[g] == ArtifactsOf(sys, id)[g]
  {
    if c.runId != id {
      OthersUntouched(d, sys, c, sys', id);
    } else if c.Launch? {
      if id !in sys.rows && id in sys'.threads {
        FirstInvocation(c.events);
        PipelineOrder(sys'.threads[id]);
        assert g !in ExecutedGates(sys'.threads[id]);
      }
    } else {
      NotAccepted(d, sys, c, id);
    }
  }

  lemma NotAccepted(d: Directory, sys: System, c: Command, id: RunId)
    requires c.Decide? && c.runId == id && forall gate :: !(Decides(d, sys, c, id, gate) && c.yes)
    ensures c.yes ==> ApprovalCheck(d, sys, id, c.token).Failure?
  {
    var check := ApprovalCheck(d, sys, id, c.token);
    if c.yes && check.Success? {
      ApprovalCheckIff(d, sys, id, c.token, check.value);
      var gate :| MayDecide(d, sys, id, c.token, gate);
      assert Decides(d, sys, c, id, gate);
    }
  }

  /** Command `j` approved `gate` of run `id`. */
  ghost predicate ApprovedBy(d: Directory, trace: seq<System>, commands: seq<Command>, id: RunId, gate: Node, j: nat) {
    j < |commands| && j < |trace| && commands[j].Decide? && commands[j].yes && Decides(d, trace[j], commands[j], id, gate)
  }

  /** The login behind command `j`. */
  function LoginAt(d: Directory, commands: seq<Command>, j: nat): Option<string> {
    if j < |commands| && commands[j].token in d.users then Some(d.users[commands[j].token].login) else None
  }

  /** The artifact of the gate is there exactly if one of the first `k` commands approved
      it, and names the login behind that command. */
  ghost predicate GateRecord(d: Directory, trace: seq<System>, commands: seq<Command>, k: nat, id: RunId, gate: Node,
                             artifacts: map<Node, Artifact>) {
    && (gate in artifacts <==> exists j: nat :: j < k && ApprovedBy(d, trace, commands, id, gate, j))
    && (gate in artifacts ==> artifacts[gate].GateDecision? && artifacts[gate].approved)
    && (forall j: nat :: j < k && ApprovedBy(d, trace, commands, id, gate, j) ==>
          gate in artifacts && artifacts[gate].GateDecision? && LoginAt(d, commands, j) == Some(artifacts[gate].approver))
  }

  /** A gate is recorded exactly if some command approved it, one that found the run
      waiting at that gate and came from an entitled user other than the trigger user;
      and it records that user's login. */
  lemma {:induction false} GatesAreApprovals(d: Directory, trace: seq<System>, commands: seq<Command>, k: nat, id: RunId, gate: Node)
    requires IsHistory(d, trace, commands) && k < |trace| && IsGate(gate)
    ensures GateRecord(d, trace, commands, k, id, gate, ArtifactsOf(trace[k], id))
  {
    if k > 0 {
      GatesAreApprovals(d, trace, commands, k - 1, id, gate);
      GateRecordStep(d, trace, commands, k - 1, id, gate);
    }
  }

  lemma GateRecordStep(d: Directory, trace: seq<System>, commands: seq<Command>, k: nat, id: RunId, gate: Node)
    requires IsHistory(d, trace, commands) && k < |commands| && |trace| == |commands| + 1 && IsGate(gate)
    requires GateRecord(d, trace, commands, k, id, gate, ArtifactsOf(trace[k], id))
    ensures GateRecord(d, trace, commands, k + 1, id, gate, ArtifactsOf(trace[k + 1], id))
  {
    HistoryKeeps(d, trace, commands, k);
    StepAt(d, trace, commands, k);
    GateStep(d, trace[k], commands[k], trace[k + 1], id, gate);
    ApprovalsGrow(d, trace, commands, k, id, gate, ArtifactsOf(trace[k], id), ArtifactsOf(trace[k + 1], id));
  }

  lemma ApprovalsGrow(d: Directory, trace: seq<System>, commands: seq<Command>, k: nat, id: RunId, gate: Node,
                      was: map<Node, Artifact>, now: map<Node, Artifact>)
    requires k < |commands| && k < |trace| && GateRecord(d, trace, commands, k, id, gate, was)
    requires if ApprovedBy(d, trace, commands, id, gate, k)
             then gate !in was && gate in now && now[gate] == GateDecision(true, d.users[commands[k].token].login)
             else (gate in now <==> gate in was) && (gate in was ==> now[gate] == was[gate])
    ensures GateRecord(d, trace, commands, k + 1, id, gate, now)
  {
    if ApprovedBy(d, trace, commands, id, gate, k) {
      ApprovalAdded(d, trace, commands, k, id, gate, now);
    } else {
      assert forall j: nat :: j < k + 1 && ApprovedBy(d, trace, commands, id, gate, j) ==> j < k;
    }
  }

  lemma ApprovalAdded(d: Directory, trace: seq<System>, commands: seq<Command>, k: nat, id: RunId, gate: Node,
                      now: map<Node, Artifact>)
    requires ApprovedBy(d, trace, commands, id, gate, k)
    requires forall j: nat :: j < k ==> !ApprovedBy(d, trace, commands, id, gate, j)
    requires gate in now && now[gate] == GateDecision(true, d.users[commands[k].token].login)
    ensures GateRecord(d, trace, commands, k + 1, id, gate, now)
  {
  }

  lemma GateStep(d: Directory, sys: System, c: Command, sys': System, id: RunId, gate: Node)
    requires SystemInv(d, sys) && Step(d, sys, c, sys') && IsGate(gate)
    ensures if c.Decide? && c.yes && Decides(d, sys, c, id, gate) then
              && gate !in ArtifactsOf(sys, id) && gate in ArtifactsOf(sys', id)
              && ArtifactsOf(sys', id)[gate] == GateDecision(true, d.users[c.token].login)
            else
              && (gate in ArtifactsOf(sys', id) <==> gate in ArtifactsOf(sys, id))
              && (gate in ArtifactsOf(sys, id) ==> ArtifactsOf(sys', id)[gate] == ArtifactsOf(sys, id)[gate])
  {
    if g :| Decides(d, sys, c, id, g) && c.yes {
      ApprovalRecords(d, sys, c, sys', id, g);
    } else {
      OtherwiseSameGates(d, sys, c, sys', id, gate);
    }
  }

  /** Nobody approved a gate of a run that a token of theirs launched. */
  lemma NobodyApprovesOwnRun(d: Directory, trace: seq<System>, commands: seq<Command>, k: nat, id: RunId, gate: Node, j: nat)
    requires IsHistory(d, trace, commands) && k < |trace| && IsGate(gate) && gate in ArtifactsOf(trace[k], id)
    requires j < k && LaunchedAt(d, commands, id, j)
    ensures ArtifactsOf(trace[k], id)[gate].GateDecision?
    ensures ArtifactsOf(trace[k], id)[gate].approver != d.users[commands[j].token].login
  {
    GatesAreApprovals(d, trace, commands, k, id, gate);
    var i: nat :| i < k && ApprovedBy(d, trace, commands, id, gate, i);
    RowsAreLaunches(d, trace, commands, i, id);
    var first: nat :| first < i && LaunchedAt(d, commands, id, first);
    assert first == j;
  }

  // ---- how a run ended ---------------------------------------------------------------------

  /** Command `j` was a no that passed its checks. */
  ghost predicate RejectedBy(d: Directory, trace: seq<System>, commands: seq<Command>, id: RunId, j: nat) {
    && j < |commands| && j < |trace| && commands[j].Decide? && !commands[j].yes
    && exists gate :: Decides(d, trace[j], commands[j], id, gate)
  }

  /** A no rejects the run, under the name and with the comment of whoever said it, and
      touches nothing else. */
  lemma RefusalStep(d: Directory, sys: System, c: Command, sys': System, id: RunId, gate: Node)
    requires Step(d, sys, c, sys') && Decides(d, sys, c, id, gate) && !c.yes
    ensures var row := sys.rows[id].(status := Rejected, reviewedBy := Some(d.users[c.token].login), comment := c.comment);
            sys' == sys.(rows := sys.rows[id := row])
  {
    DecidesPasses(d, sys, c, id, gate);
  }

  lemma RefusalRejects(d: Directory, trace: seq<System>, commands: seq<Command>, id: RunId, j: nat)
    requires IsHistory(d, trace, commands) && RejectedBy(d, trace, commands, id, j)
    ensures |trace| == |commands| + 1 && id in trace[j].rows && commands[j].token in d.users
    ensures var row := trace[j].rows[id].(status := Rejected, reviewedBy := Some(d.users[commands[j].token].login),
                                          comment := commands[j].comment);
            trace[j + 1] == trace[j].(rows := trace[j].rows[id := row])
  {
    var gate :| Decides(d, trace[j], commands[j], id, gate);
    StepAt(d, trace, commands, j);
    RefusalStep(d, trace[j], commands[j], trace[j + 1], id, gate);
  }

  /** Once the release gate was executed nothing is left, and not before. */
  lemma ReleaseGateIsLast(s: RunState)
    requires Reachable(s)
    ensures s.group == {} <==> ReleaseGate in s.artifacts
  {
    PipelineOrder(s);
    if ReleaseGate in s.artifacts { NothingAfterRelease(s); }
    assert ReleaseGate in ExecutedGates(s) <==> ReleaseGate in s.artifacts;
  }

  lemma NothingAfterRelease(s: RunState)
    requires Ordered(s) && ReleaseGate in s.executed
    ensures s.group == {}
  {
    forall n | n in s.group ensures false {
      assert Live(s, n) && Live(s, ReleaseGate);
      if n != ReleaseGate { LowerLiveExecuted(s, n, ReleaseGate); }
    }
  }

  /** The row after an approval, by whether it was the one of the release gate. */
  lemma ApprovalEnds(d: Directory, sys: System, c: Command, sys': System, id: RunId, gate: Node)
    requires SystemInv(d, sys) && Step(d, sys, c, sys') && Decides(d, sys, c, id, gate) && c.yes
    ensures id in sys'.rows
    ensures if gate == ReleaseGate then
              sys'.rows[id] == sys.rows[id].(status := Completed, reviewedBy := Some(d.users[c.token].login), comment := c.comment)
            else
              sys'.rows[id].status.Awaiting? && sys'.rows[id] == sys.rows[id].(status := sys'.rows[id].status)
  {
    var login := d.users[c.token].login;
    var status := ApprovalStep(d, sys, c, sys', id, gate);
    ApprovedThread(sys.threads[id], gate, login, c.events);
    NextStatus(sys.threads[id], sys'.threads[id], gate, login, status);
  }

  lemma NextStatus(s: RunState, t: RunState, gate: Node, login: string, status: Status)
    requires Reachable(s) && s.group == {gate} && IsGate(gate)
    requires Reachable(t) && Quiet(t) && Paused(t, status) && OneMoreApproval(s.artifacts, t.artifacts, gate, login)
    ensures t.group == {} <==> gate == ReleaseGate
    ensures if gate == ReleaseGate then status == Completed else status.Awaiting?
  {
    ReleaseGateIsLast(s);
    ReleaseGateIsLast(t);
    PausedIsUnique(t, status);
  }

  /** The row of a run that a launch has just created. */
  lemma LaunchedRow(d: Directory, sys: System, c: Command, sys': System)
    requires Step(d, sys, c, sys') && c.Launch? && c.runId in sys'.rows && c.runId !in sys.rows
    ensures var row := sys'.rows[c.runId];
            row.status != Rejected && row.status != Completed && row.reviewedBy == None && row.comment == None
  {
    if c.scenario.Some? {
      var status :| LaunchedAs(sys, c, Resolve(d, c.token).value.login, status, sys');
      FirstInvocation(c.events);
      ReleaseGateIsLast(Run(Begin(), c.events));
      PipelineOrder(Run(Begin(), c.events));
      assert ReleaseGate !in ExecutedGates(Run(Begin(), c.events));
      PausedIsUnique(Run(Begin(), c.events), status);
    }
  }

  /** No decision on this run, and its row stays; or it is only now created. */
  lemma UndecidedRow(d: Directory, sys: System, c: Command, sys': System, id: RunId)
    requires SystemInv(d, sys) && Step(d, sys, c, sys') && forall gate :: !Decides(d, sys, c, id, gate)
    ensures id in sys.rows ==> id in sys'.rows && sys'.rows[id] == sys.rows[id]
    ensures id in sys'.rows && id !in sys.rows ==>
              var row := sys'.rows[id];
              row.status != Rejected && row.status != Completed && row.reviewedBy == None && row.comment == None
  {
    if c.runId != id {
      OthersUntouched(d, sys, c, sys', id);
    } else if c.Launch? {
      if id in sys.rows { LaunchStep(d, sys, c, sys'); } else if id in sys'.rows { LaunchedRow(d, sys, c, sys'); }
    } else {
      NobodyDecides(d, sys, c, id);
    }
  }

  lemma NobodyDecides(d: Directory, sys: System, c: Command, id: RunId)
    requires c.Decide? && c.runId == id && forall gate :: !Decides(d, sys, c, id, gate)
    ensures ApprovalCheck(d, sys, id, c.token).Failure?
  {
    var check := ApprovalCheck(d, sys, id, c.token);
    if check.Success? {
      ApprovalCheckIff(d, sys, id, c.token, check.value);
      var gate :| MayDecide(d, sys, id, c.token, gate);
      assert Decides(d, sys, c, id, gate);
    }
  }

  /** The comment that came with command `j`. */
  function CommentAt(commands: seq<Command>, j: nat): Option<string> {
    if j < |commands| && commands[j].Decide? then commands[j].comment else None
  }

  /** Command `j` ended the run: a no, or a yes at the release gate. */
  ghost predicate EndedBy(d: Directory, trace: seq<System>, commands: seq<Command>, id: RunId, j: nat) {
    RejectedBy(d, trace, commands, id, j) || ApprovedBy(d, trace, commands, id, ReleaseGate, j)
  }

  ghost predicate RejectedBefore(d: Directory, trace: seq<System>, commands: seq<Command>, k: nat, id: RunId) {
    exists j: nat :: j < k && RejectedBy(d, trace, commands, id, j)
  }

  ghost predicate ReleasedBefore(d: Directory, trace: seq<System>, commands: seq<Command>, k: nat, id: RunId) {
    exists j: nat :: j < k && ApprovedBy(d, trace, commands, id, ReleaseGate, j)
  }

  ghost predicate NamesWhoEnded(d: Directory, trace: seq<System>, commands: seq<Command>, k: nat, id: RunId, row: Row) {
    forall j: nat :: j < k && EndedBy(d, trace, commands, id, j) ==>
      row.reviewedBy == LoginAt(d, commands, j) && row.comment == CommentAt(commands, j)
  }

  lemma OneMoreCommand(d: Directory, trace: seq<System>, commands: seq<Command>, k: nat, id: RunId)
    ensures RejectedBefore(d, trace, commands, k + 1, id) <==>
              RejectedBefore(d, trace, commands, k, id) || RejectedBy(d, trace, commands, id, k)
    ensures ReleasedBefore(d, trace, commands, k + 1, id) <==>
              ReleasedBefore(d, trace, commands, k, id) || ApprovedBy(d, trace, commands, id, ReleaseGate, k)
  {
  }

  lemma StillNamed(d: Directory, trace: seq<System>, commands: seq<Command>, k: nat, id: RunId, row: Row, row': Row)
    requires NamesWhoEnded(d, trace, commands, k, id, row) && !EndedBy(d, trace, commands, id, k)
    requires row'.reviewedBy == row.reviewedBy && row'.comment == row.comment
    ensures NamesWhoEnded(d, trace, commands, k + 1, id, row')
  {
    assert forall j: nat :: j < k + 1 && EndedBy(d, trace, commands, id, j) ==> j < k;
  }

  lemma NewlyNamed(d: Directory, trace: seq<System>, commands: seq<Command>, k: nat, id: RunId, row: Row)
    requires !RejectedBefore(d, trace, commands, k, id) && !ReleasedBefore(d, trace, commands, k, id)
    requires row.reviewedBy == LoginAt(d, commands, k) && row.comment == CommentAt(commands, k)
    ensures NamesWhoEnded(d, trace, commands, k + 1, id, row)
  {
    assert forall j: nat :: j < k ==> !EndedBy(d, trace, commands, id, j);
  }

  /** The row says who ended the run, and how. */
  ghost predicate Outcome(d: Directory, trace: seq<System>, commands: seq<Command>, k: nat, id: RunId, row: Row) {
    && (row.status == Rejected <==> RejectedBefore(d, trace, commands, k, id))
    && (row.status == Completed <==> ReleasedBefore(d, trace, commands, k, id))
    && NamesWhoEnded(d, trace, commands, k, id, row)
    && (row.status != Rejected && row.status != Completed ==> row.reviewedBy == None && row.comment == None)
  }

  /** One command, as far as the outcome of one run goes. */
  ghost predicate OutcomeStep(d: Directory, sys: System, c: Command, id: RunId, row: Row, row': Row) {
    if c.Decide? && exists gate :: Decides(d, sys, c, id, gate) then
      if !c.yes then row' == row.(status := Rejected, reviewedBy := Some(d.users[c.token].login), comment := c.comment)
      else if Decides(d, sys, c, id, ReleaseGate) then
        row' == row.(status := Completed, reviewedBy := Some(d.users[c.token].login), comment := c.comment)
      else row'.status.Awaiting? && row' == row.(status := row'.status)
    else row' == row
  }

  lemma OutcomeMoves(d: Directory, sys: System, c: Command, sys': System, id: RunId)
    requires SystemInv(d, sys) && Step(d, sys, c, sys') && id in sys.rows
    ensures id in sys'.rows && OutcomeStep(d, sys, c, id, sys.rows[id], sys'.rows[id])
  {
    if gate :| Decides(d, sys, c, id, gate) {
      if c.yes { ApprovalEnds(d, sys, c, sys', id, gate); } else { RefusalStep(d, sys, c, sys', id, gate); }
    } else {
      UndecidedRow(d, sys, c, sys', id);
    }
  }

  lemma OutcomeStays(d: Directory, trace: seq<System>, commands: seq<Command>, k: nat, id: RunId, row: Row, row': Row)
    requires Outcome(d, trace, commands, k, id, row) && !EndedBy(d, trace, commands, id, k)
    requires row'.reviewedBy == row.reviewedBy && row'.comment == row.comment
    requires (row'.status == Rejected <==> row.status == Rejected) && (row'.status == Completed <==> row.status == Completed)
    ensures Outcome(d, trace, commands, k + 1, id, row')
  {
    OneMoreCommand(d, trace, commands, k, id);
    StillNamed(d, trace, commands, k, id, row, row');
  }

  lemma OutcomeEnds(d: Directory, trace: seq<System>, commands: seq<Command>, k: nat, id: RunId, row: Row, row': Row)
    requires k < |commands| && Outcome(d, trace, commands, k, id, row) && row.status.Awaiting?
    requires RejectedBy(d, trace, commands, id, k) != ApprovedBy(d, trace, commands, id, ReleaseGate, k)
    requires row'.reviewedBy == LoginAt(d, commands, k) && row'.comment == CommentAt(commands, k)
    requires row'.status == if RejectedBy(d, trace, commands, id, k) then Rejected else Completed
    ensures Outcome(d, trace, commands, k + 1, id, row')
  {
    OneMoreCommand(d, trace, commands, k, id);
    NewlyNamed(d, trace, commands, k, id, row');
  }

  lemma OutcomeGrows(d: Directory, trace: seq<System>, commands: seq<Command>, k: nat, id: RunId, row: Row, row': Row)
    requires k < |commands| && k < |trace| && id in trace[k].rows && trace[k].rows[id] == row
    requires Outcome(d, trace, commands, k, id, row) && OutcomeStep(d, trace[k], commands[k], id, row, row')
    ensures Outcome(d, trace, commands, k + 1, id, row')
  {
    if EndedBy(d, trace, commands, id, k) {
      OutcomeEnds(d, trace, commands, k, id, row, row');
    } else {
      OutcomeStays(d, trace, commands, k, id, row, row');
    }
  }

  /** A run is rejected exactly if an entitled user said no while it waited at a gate, and
      completed exactly if one approved its release gate; either way the row names that
      user and holds the comment given, and until then it names nobody. */
  lemma {:induction false} OutcomeIs(d: Directory, trace: seq<System>, commands: seq<Command>, k: nat, id: RunId)
    requires IsHistory(d, trace, commands) && k < |trace| && id in trace[k].rows
    ensures Outcome(d, trace, commands, k, id, trace[k].rows[id])
  {
    if k > 0 {
      if id in trace[k - 1].rows {
        OutcomeIs(d, trace, commands, k - 1, id);
        OutcomeGoesOn(d, trace, commands, k - 1, id);
      } else {
        OutcomeBegins(d, trace, commands, k - 1, id);
      }
    }
  }

  lemma OutcomeGoesOn(d: Directory, trace: seq<System>, commands: seq<Command>, k: nat, id: RunId)
    requires IsHistory(d, trace, commands) && k < |commands| && |trace| == |commands| + 1
    requires id in trace[k].rows && Outcome(d, trace, commands, k, id, trace[k].rows[id])
    ensures id in trace[k + 1].rows && Outcome(d, trace, commands, k + 1, id, trace[k + 1].rows[id])
  {
    HistoryKeeps(d, trace, commands, k);
    StepAt(d, trace, commands, k);
    OutcomeMoves(d, trace[k], commands[k], trace[k + 1], id);
    OutcomeGrows(d, trace, commands, k, id, trace[k].rows[id], trace[k + 1].rows[id]);
  }

  lemma OutcomeBegins(d: Directory, trace: seq<System>, commands: seq<Command>, k: nat, id: RunId)
    requires IsHistory(d, trace, commands) && k < |commands| && |trace| == |commands| + 1
    requires id !in trace[k].rows && id in trace[k + 1].rows
    ensures Outcome(d, trace, commands, k + 1, id, trace[k + 1].rows[id])
  {
    HistoryKeeps(d, trace, commands, k);
    StepAt(d, trace, commands, k);
    NobodyDecidesYet(d, trace[k], commands[k], id);
    UndecidedRow(d, trace[k], commands[k], trace[k + 1], id);
    OutcomeAtLaunch(d, trace, commands, k, id, trace[k + 1].rows[id]);
  }

  lemma NobodyDecidesYet(d: Directory, sys: System, c: Command, id: RunId)
    requires id !in sys.rows
    ensures forall gate :: !Decides(d, sys, c, id, gate)
  {
  }

  lemma OutcomeAtLaunch(d: Directory, trace: seq<System>, commands: seq<Command>, k: nat, id: RunId, row: Row)
    requires IsHistory(d, trace, commands) && k < |commands| && id !in trace[k].rows
    requires row.status != Rejected && row.status != Completed && row.reviewedBy == None && row.comment == None
    ensures Outcome(d, trace, commands, k + 1, id, row)
  {
    forall j: nat | j < k + 1
      ensures !RejectedBy(d, trace, commands, id, j) && !ApprovedBy(d, trace, commands, id, ReleaseGate, j)
    {
      NotThereYet(d, trace, commands, j, k, id);
    }
  }

  /** Nobody decides a run that does not exist. */
  lemma NotThereYet(d: Directory, trace: seq<System>, commands: seq<Command>, j: nat, k: nat, id: RunId)
    requires IsHistory(d, trace, commands) && j <= k < |trace| && id !in trace[k].rows
    ensures !RejectedBy(d, trace, commands, id, j) && !ApprovedBy(d, trace, commands, id, ReleaseGate, j)
  {
    RowsAreLaunches(d, trace, commands, j, id);
    RowsAreLaunches(d, trace, commands, k, id);
  }

  /** A completed run names the approver recorded at its release gate. */
  lemma CompletedByReleaseApprover(d: Directory, trace: seq<System>, commands: seq<Command>, k: nat, id: RunId)
    requires IsHistory(d, trace, commands) && k < |trace| && id in trace[k].rows && trace[k].rows[id].status == Completed
    ensures ReleaseGate in ArtifactsOf(trace[k], id) && ArtifactsOf(trace[k], id)[ReleaseGate].GateDecision?
    ensures trace[k].rows[id].reviewedBy == Some(ArtifactsOf(trace[k], id)[ReleaseGate].approver)
  {
    OutcomeIs(d, trace, commands, k, id);
    GatesAreApprovals(d, trace, commands, k, id, ReleaseGate);
    var j: nat :| j < k && ApprovedBy(d, trace, commands, id, ReleaseGate, j);
    assert EndedBy(d, trace, commands, id, j);
  }
}
