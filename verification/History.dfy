/** Whole command histories: what every sequence of `run` and `approve` commands keeps. */
module History {
  import opened Wrappers
  import opened BarrierGraph
  import opened GreenField
  import opened Auth
  import opened RunProtocol

  // ---- the system invariant --------------------------------------------------

  ghost predicate Authorised(d: Directory, row: Row, s: RunState) {
    forall gate :: gate in ExecutedGates(s) ==>
      && gate in s.artifacts && s.artifacts[gate].GateDecision? && s.artifacts[gate].approved
      && GatePermission(gate).Some?
      && Entitled(d, GatePermission(gate).value, row.triggeredBy, s.artifacts[gate].approver)
  }

  /** A thread at rest, in step with the status of its row. */
  ghost predicate InStep(d: Directory, row: Row, s: RunState) {
    && Reachable(s) && Quiet(s)
    && (row.status.Awaiting? <==> s.group != {} && row.status != Rejected)
    && (row.status.Awaiting? ==> row.status.gate.Some? && IsGate(row.status.gate.value) && s.group == {row.status.gate.value})
    && (row.status.Completed? <==> s.group == {})
    && Authorised(d, row, s)
  }

  ghost predicate RunInv(d: Directory, sys: System, id: RunId)
    requires id in sys.rows
  {
    if id in sys.threads then sys.rows[id].status != Running && InStep(d, sys.rows[id], sys.threads[id])
    else sys.rows[id].status == Running
  }

  ghost predicate SystemInv(d: Directory, sys: System) {
    && Distinct(sys.order) && (forall id :: id in sys.order <==> id in sys.rows)
    && (forall id :: id in sys.threads ==> id in sys.rows)
    && (forall id :: id in sys.rows ==> RunInv(d, sys, id))
  }

  const EMPTY := System(map[], [], map[])

  /** `trace[k + 1]` is what the system may be after command `k`. */
  ghost predicate IsHistory(d: Directory, trace: seq<System>, commands: seq<Command>) {
    && |trace| == |commands| + 1 && trace[0] == EMPTY
    && forall k :: 0 <= k < |commands| ==> Step(d, trace[k], commands[k], trace[k + 1])
  }

  // ---- one command keeps it ----------------------------------------------------

  /** A command changes nothing about any other run. */
  lemma OthersUntouched(d: Directory, sys: System, c: Command, sys': System, id: RunId)
    requires Step(d, sys, c, sys') && id != c.runId
    ensures id in sys'.rows <==> id in sys.rows
    ensures id in sys'.threads <==> id in sys.threads
    ensures id in sys.rows ==> sys'.rows[id] == sys.rows[id]
    ensures id in sys.threads ==> sys'.threads[id] == sys.threads[id]
  {
  }

  lemma LaunchKeeps(d: Directory, sys: System, c: Command, sys': System)
    requires SystemInv(d, sys) && c.Launch? && Step(d, sys, c, sys')
    ensures c.runId in sys'.rows ==> RunInv(d, sys', c.runId)
    ensures c.runId in sys.rows ==> sys' == sys
  {
    if c.runId !in sys.rows && c.runId in sys'.rows && c.scenario.Some? {
      var s := Run(Begin(), c.events);
      var status :| LaunchedAs(sys, c, Resolve(d, c.token).value.login, status, sys');
      FirstInvocation(c.events);
      PausedIsUnique(s, status);
      QuietState(s);
    }
  }

  /** The gate that was resumed, and the status its thread got. */
  lemma ResumedParts(sys: System, c: Command, login: string, sys': System) returns (gate: Node, status: Status)
    requires c.Decide? && c.runId in sys.rows && c.runId in sys.threads && Resumed(sys, c, login, sys')
    ensures var s := sys.threads[c.runId];
            && gate in s.group && IsGate(gate)
            && Invoked(Finish(Pipeline(), s, Approval(gate, login)), c.events)
            && c.runId in sys'.rows && c.runId in sys'.threads
            && sys'.threads[c.runId] == Run(Finish(Pipeline(), s, Approval(gate, login)), c.events)
            && Paused(sys'.threads[c.runId], status) && sys'.rows[c.runId].status == status
            && sys'.rows[c.runId].triggeredBy == sys.rows[c.runId].triggeredBy
  {
    gate, status :| ResumedAs(sys, c, login, gate, status, sys');
  }

  /** A resumed thread is again in step with its row. */
  lemma ThreadKept(d: Directory, row: Row, row': Row, s: RunState, t: RunState, gate: Node, login: string, events: seq<Update>)
    requires InStep(d, row, s) && gate in s.group && IsGate(gate)
    requires Invoked(Finish(Pipeline(), s, Approval(gate, login)), events)
    requires t == Run(Finish(Pipeline(), s, Approval(gate, login)), events)
    requires Paused(t, row'.status) && row'.triggeredBy == row.triggeredBy
    requires GatePermission(gate).Some? && Entitled(d, GatePermission(gate).value, row.triggeredBy, login)
    ensures InStep(d, row', t) && row'.status != Running
    ensures ExecutedGates(t) == ExecutedGates(s) + {gate} && gate !in ExecutedGates(s)
    ensures Extends(t.taken, s.taken)
  {
    var u := ResumeAddsOneGate(s, gate, login, events);
    PausedIsUnique(t, row'.status);
    QuietState(t);
    AuthorityKept(d, row, row', s, t, gate, login);
  }

  lemma OneMoreGate(s: RunState, t: RunState, gate: Node)
    requires ExecutedGates(t) == ExecutedGates(s) + {gate} && gate !in ExecutedGates(s)
    ensures |ExecutedGates(t)| == |ExecutedGates(s)| + 1
  {
  }

  lemma ResumeKeeps(d: Directory, sys: System, c: Command, login: string, sys': System)
    requires c.Decide? && c.runId in sys.rows && c.runId in sys.threads
    requires RunInv(d, sys, c.runId) && c.yes
    requires ApprovalCheck(d, sys, c.runId, c.token) == Success(login)
    requires Resumed(sys, c, login, sys')
    ensures c.runId in sys'.rows && c.runId in sys'.threads && RunInv(d, sys', c.runId)
    ensures |ExecutedGates(sys'.threads[c.runId])| == |ExecutedGates(sys.threads[c.runId])| + 1
    ensures Extends(sys'.threads[c.runId].taken, sys.threads[c.runId].taken)
    ensures sys'.rows[c.runId].triggeredBy == sys.rows[c.runId].triggeredBy
  {
    var s, row := sys.threads[c.runId], sys.rows[c.runId];
    var gate, status := ResumedParts(sys, c, login, sys');
    var t, row' := sys'.threads[c.runId], sys'.rows[c.runId];
    assert row.status == Awaiting(Some(gate)) by { assert s.group == {row.status.gate.value}; }
    ApprovalMeansEntitled(d, GatePermission(gate).value, row.triggeredBy, c.token);
    ThreadKept(d, row, row', s, t, gate, login, c.events);
    OneMoreGate(s, t, gate);
  }

  lemma AuthorityKept(d: Directory, row: Row, row': Row, s: RunState, t: RunState, gate: Node, login: string)
    requires Authorised(d, row, s) && row'.triggeredBy == row.triggeredBy
    requires ExecutedGates(t) == ExecutedGates(s) + {gate} && Extends(t.artifacts, s.artifacts)
    requires gate in t.artifacts && t.artifacts[gate] == GateDecision(true, login)
    requires GatePermission(gate).Some? && Entitled(d, GatePermission(gate).value, row.triggeredBy, login)
    ensures Authorised(d, row', t)
  {
    forall g | g in ExecutedGates(t)
      ensures g in t.artifacts && t.artifacts[g].GateDecision? && t.artifacts[g].approved
      ensures GatePermission(g).Some? && Entitled(d, GatePermission(g).value, row'.triggeredBy, t.artifacts[g].approver)
    {
    }
  }

  lemma DecideKeeps(d: Directory, sys: System, c: Command, sys': System)
    requires SystemInv(d, sys) && c.Decide? && Step(d, sys, c, sys')
    ensures c.runId in sys'.rows <==> c.runId in sys.rows
    ensures c.runId in sys'.rows ==> RunInv(d, sys', c.runId)
    ensures sys'.order == sys.order
  {
    var check := ApprovalCheck(d, sys, c.runId, c.token);
    if check.Success? {
      assert RunInv(d, sys, c.runId);
      if c.yes { ResumeKeeps(d, sys, c, check.value, sys'); }
    }
  }

  /** The rows, their creation order and the threads stay in line. */
  lemma StepOrder(d: Directory, sys: System, c: Command, sys': System)
    requires SystemInv(d, sys) && Step(d, sys, c, sys')
    ensures Distinct(sys'.order) && (forall id :: id in sys'.order <==> id in sys'.rows)
    ensures forall id :: id in sys'.threads ==> id in sys'.rows
  {
    if c.Decide? {
      DecideKeeps(d, sys, c, sys');
      forall id | id != c.runId ensures id in sys'.rows <==> id in sys.rows {
        OthersUntouched(d, sys, c, sys', id);
      }
    } else {
      LaunchOrder(d, sys, c, sys');
    }
  }

  lemma LaunchOrder(d: Directory, sys: System, c: Command, sys': System)
    requires Step(d, sys, c, sys') && c.Launch? && Distinct(sys.order)
    requires (forall id :: id in sys.order <==> id in sys.rows) && forall id :: id in sys.threads ==> id in sys.rows
    ensures Distinct(sys'.order) && (forall id :: id in sys'.order <==> id in sys'.rows)
    ensures forall id :: id in sys'.threads ==> id in sys'.rows
  {
  }

  lemma StepRun(d: Directory, sys: System, c: Command, sys': System, id: RunId)
    requires SystemInv(d, sys) && Step(d, sys, c, sys') && id in sys'.rows
    ensures RunInv(d, sys', id)
  {
    if id != c.runId {
      OthersUntouched(d, sys, c, sys', id);
    } else if c.Launch? {
      LaunchKeeps(d, sys, c, sys');
    } else {
      DecideKeeps(d, sys, c, sys');
    }
  }

  lemma StepKeeps(d: Directory, sys: System, c: Command, sys': System)
    requires SystemInv(d, sys) && Step(d, sys, c, sys')
    ensures SystemInv(d, sys')
  {
    StepOrder(d, sys, c, sys');
    forall id | id in sys'.rows ensures RunInv(d, sys', id) { StepRun(d, sys, c, sys', id); }
  }

  lemma StepAt(d: Directory, trace: seq<System>, commands: seq<Command>, k: nat)
    requires IsHistory(d, trace, commands) && k < |commands|
    ensures |trace| == |commands| + 1 && Step(d, trace[k], commands[k], trace[k + 1])
  {
  }

  lemma {:induction false} HistoryKeeps(d: Directory, trace: seq<System>, commands: seq<Command>, k: nat)
    requires IsHistory(d, trace, commands) && k < |trace|
    ensures SystemInv(d, trace[k])
  {
    if k > 0 {
      HistoryKeeps(d, trace, commands, k - 1);
      StepAt(d, trace, commands, k - 1);
      StepKeeps(d, trace[k - 1], commands[k - 1], trace[k]);
    }
  }

  // ---- the two stores agree ------------------------------------------------------

  /** After every command, the status column and the checkpoint say the same. */
  lemma TwoStoresAgree(d: Directory, trace: seq<System>, commands: seq<Command>, k: nat, id: RunId)
    requires IsHistory(d, trace, commands) && k < |trace| && id in trace[k].rows
    ensures var status, threads := trace[k].rows[id].status, trace[k].threads;
            && (status == Running <==> id !in threads)
            && (status == Completed <==> id in threads && threads[id].group == {})
            && (forall gate :: status == Awaiting(Some(gate)) <==>
                  id in threads && threads[id].group == {gate} && status != Rejected)
            && status != Awaiting(None)
            && (id in threads ==> threads[id].finished == [] && forall n :: n in threads[id].group ==> IsGate(n))
  {
    HistoryKeeps(d, trace, commands, k);
    assert RunInv(d, trace[k], id);
    if id in trace[k].threads { QuietState(trace[k].threads[id]); }
  }

  // ---- authority over the whole run --------------------------------------------------

  /** Every gate recorded in a run was approved by someone entitled to it who did
      not trigger the run; a completed run has passed all four mandatory gates,
      and the schema gate exactly when `implementation` asked for it. */
  lemma WholeRunAuthority(d: Directory, trace: seq<System>, commands: seq<Command>, k: nat, id: RunId)
    requires IsHistory(d, trace, commands) && k < |trace| && id in trace[k].threads
    ensures id in trace[k].rows
    ensures var row, s := trace[k].rows[id], trace[k].threads[id];
            && (forall gate :: IsGate(gate) && gate in s.artifacts ==>
                  && s.artifacts[gate].GateDecision? && s.artifacts[gate].approved
                  && GatePermission(gate).Some?
                  && Entitled(d, GatePermission(gate).value, row.triggeredBy, s.artifacts[gate].approver))
            && (row.status == Completed ==>
                  forall gate :: gate in RequiredGates(SchemaChange(s)) <==> IsGate(gate) && gate in s.artifacts)
  {
    HistoryKeeps(d, trace, commands, k);
    var s := trace[k].threads[id];
    assert RunInv(d, trace[k], id);
    PipelineOrder(s);
    assert forall gate :: IsGate(gate) && gate in s.artifacts <==> gate in ExecutedGates(s);
  }

  // ---- counting approvals -------------------------------------------------------------

  predicate IsAccepted(d: Directory, sys: System, c: Command, id: RunId) {
    c.Decide? && c.runId == id && c.yes && ApprovalCheck(d, sys, id, c.token).Success?
  }

  /** How many approvals of run `id` were accepted among the first `k` commands. */
  ghost function Accepted(d: Directory, trace: seq<System>, commands: seq<Command>, id: RunId, k: nat): nat
    requires k <= |commands| < |trace|
  {
    if k == 0 then 0
    else Accepted(d, trace, commands, id, k - 1) + if IsAccepted(d, trace[k - 1], commands[k - 1], id) then 1 else 0
  }

  ghost function GatesPassed(sys: System, id: RunId): nat {
    if id in sys.threads then |ExecutedGates(sys.threads[id])| else 0
  }

  lemma StepCounts(d: Directory, sys: System, c: Command, sys': System, id: RunId)
    requires SystemInv(d, sys) && Step(d, sys, c, sys')
    ensures GatesPassed(sys', id) == GatesPassed(sys, id) + if IsAccepted(d, sys, c, id) then 1 else 0
  {
    if c.runId != id {
      OthersUntouched(d, sys, c, sys', id);
    } else if c.Launch? {
      if id !in sys.rows && id in sys'.threads { FirstInvocation(c.events); }
    } else {
      var check := ApprovalCheck(d, sys, id, c.token);
      if check.Success? && c.yes {
        assert RunInv(d, sys, id);
        ResumeKeeps(d, sys, c, check.value, sys');
      }
    }
  }

  lemma StepCountsAt(d: Directory, trace: seq<System>, commands: seq<Command>, k: nat, id: RunId)
    requires IsHistory(d, trace, commands) && k < |commands|
    ensures |trace| == |commands| + 1
    ensures GatesPassed(trace[k + 1], id) ==
              GatesPassed(trace[k], id) + if IsAccepted(d, trace[k], commands[k], id) then 1 else 0
  {
    HistoryKeeps(d, trace, commands, k);
    StepAt(d, trace, commands, k);
    StepCounts(d, trace[k], commands[k], trace[k + 1], id);
  }

  /** Steps that each count one accepted approval add up. */
  lemma {:induction false} CountsAddUp(d: Directory, trace: seq<System>, commands: seq<Command>, k: nat, id: RunId)
    requires k <= |commands| < |trace| && GatesPassed(trace[0], id) == 0
    requires forall j {:trigger commands[j]} :: 0 <= j < k ==>
               GatesPassed(trace[j + 1], id) ==
                 GatesPassed(trace[j], id) + if IsAccepted(d, trace[j], commands[j], id) then 1 else 0
    ensures Accepted(d, trace, commands, id, k) == GatesPassed(trace[k], id)
  {
    if k > 0 {
      CountsAddUp(d, trace, commands, k - 1, id);
      assert commands[k - 1] == commands[k - 1];
    }
  }

  lemma EveryGateIsOneApproval(d: Directory, trace: seq<System>, commands: seq<Command>, k: nat, id: RunId)
    requires IsHistory(d, trace, commands) && k < |trace|
    ensures Accepted(d, trace, commands, id, k) == GatesPassed(trace[k], id)
  {
    forall j {:trigger commands[j]} | 0 <= j < k
      ensures GatesPassed(trace[j + 1], id) ==
                GatesPassed(trace[j], id) + if IsAccepted(d, trace[j], commands[j], id) then 1 else 0
    {
      StepCountsAt(d, trace, commands, j, id);
    }
    CountsAddUp(d, trace, commands, k, id);
  }

  lemma RequiredCount(schemaChange: bool)
    ensures |RequiredGates(schemaChange)| == if schemaChange then 5 else 4
  {
    var four := {ArchitectureGate, TestsGate, PrGate, ReleaseGate};
    assert four == {ArchitectureGate, TestsGate} + {PrGate, ReleaseGate};
    if schemaChange { assert RequiredGates(true) == four + {SchemaGate}; }
  }

  lemma ProperSubset<T>(s: set<T>, t: set<T>)
    requires s < t
    ensures |s| < |t|
  {
    assert t == s + (t - s);
  }

  /** A run that was not rejected is completed exactly when 4 approvals of it have
      been accepted, or 5 when `implementation` asked for a schema change; until
      then it has fewer. */
  lemma ExactApprovalCount(d: Directory, trace: seq<System>, commands: seq<Command>, k: nat, id: RunId)
    requires IsHistory(d, trace, commands) && k < |trace| && id in trace[k].threads
    ensures id in trace[k].rows
    ensures var needed := if SchemaChange(trace[k].threads[id]) then 5 else 4;
            && Accepted(d, trace, commands, id, k) <= needed
            && (trace[k].rows[id].status == Completed <==> Accepted(d, trace, commands, id, k) == needed)
  {
    HistoryKeeps(d, trace, commands, k);
    EveryGateIsOneApproval(d, trace, commands, k, id);
    var s := trace[k].threads[id];
    assert RunInv(d, trace[k], id);
    PipelineOrder(s);
    RequiredCount(SchemaChange(s));
    if s.group != {} {
      var gate :| gate in s.group;
      GatesBelow(s, gate);
      GateIsRequired(s, gate);
      ProperSubset(ExecutedGates(s), RequiredGates(SchemaChange(s)));
    }
  }

  lemma GateIsRequired(s: RunState, gate: Node)
    requires Ordered(s) && IsGate(gate) && gate in s.group
    ensures gate in RequiredGates(SchemaChange(s))
  {
    assert Live(s, gate);
  }

  // ---- rejection and completion are final ------------------------------------------------

  predicate IsFinal(sys: System, id: RunId) {
    id in sys.rows && (sys.rows[id].status == Rejected || sys.rows[id].status == Completed)
  }

  /** Run `id` has the same row and the same thread in both systems. */
  ghost predicate SameRun(sys: System, sys': System, id: RunId) {
    && id in sys.rows && id in sys'.rows && sys'.rows[id] == sys.rows[id]
    && id in sys.threads && id in sys'.threads && sys'.threads[id] == sys.threads[id]
  }

  lemma FinalStep(d: Directory, sys: System, c: Command, sys': System, id: RunId)
    requires SystemInv(d, sys) && Step(d, sys, c, sys')
    requires IsFinal(sys, id)
    ensures SameRun(sys, sys', id)
  {
    assert RunInv(d, sys, id);
    if c.runId != id { OthersUntouched(d, sys, c, sys', id); }
  }

  lemma StillSame(d: Directory, was: System, sys: System, c: Command, sys': System, id: RunId)
    requires IsFinal(was, id) && SameRun(was, sys, id)
    requires SystemInv(d, sys) && Step(d, sys, c, sys')
    ensures SameRun(was, sys', id)
  {
    FinalStep(d, sys, c, sys', id);
  }

  /** Once a run is rejected or completed, no later commands execute another node
      of it or change its row. */
  lemma {:induction false} FinalIsFinal(d: Directory, trace: seq<System>, commands: seq<Command>, k: nat, m: nat, id: RunId)
    requires IsHistory(d, trace, commands) && k <= m < |trace|
    requires IsFinal(trace[k], id)
    ensures SameRun(trace[k], trace[m], id)
  {
    if k == m {
      HistoryKeeps(d, trace, commands, k);
      assert RunInv(d, trace[k], id);
    } else {
      FinalIsFinal(d, trace, commands, k, m - 1, id);
      StaysSame(d, trace, commands, trace[k], m - 1, id);
    }
  }

  lemma StaysSame(d: Directory, trace: seq<System>, commands: seq<Command>, was: System, m: nat, id: RunId)
    requires IsHistory(d, trace, commands) && m < |commands| && |trace| == |commands| + 1
    requires IsFinal(was, id) && SameRun(was, trace[m], id)
    ensures SameRun(was, trace[m + 1], id)
  {
    HistoryKeeps(d, trace, commands, m);
    StepAt(d, trace, commands, m);
    StillSame(d, was, trace[m], commands[m], trace[m + 1], id);
  }

  // ---- review ------------------------------------------------------------------------------

  /** What `review` lists in a system. */
  function ReviewList(d: Directory, sys: System, token: string): seq<RunId> {
    Reviewed(d, sys.rows, token, PendingRuns(sys.rows, sys.order))
  }

  /** `list` picks elements of `order` without changing their order. */
  predicate Subsequence(list: seq<RunId>, order: seq<RunId>)
    decreases |order|
  {
    list == [] ||
    (order != [] && if list[0] == order[0] then Subsequence(list[1..], order[1..]) else Subsequence(list, order[1..]))
  }

  lemma {:induction false} PendingAreWaiting(rows: map<RunId, Row>, order: seq<RunId>)
    ensures forall id :: id in PendingRuns(rows, order) <==> id in order && id in rows && rows[id].status.Awaiting?
  {
    if order != [] {
      PendingAreWaiting(rows, order[1..]);
      assert order == [order[0]] + order[1..];
    }
  }

  lemma {:induction false} ReviewedMayReview(d: Directory, rows: map<RunId, Row>, token: string, pending: seq<RunId>)
    ensures forall id :: id in Reviewed(d, rows, token, pending) <==>
              id in pending && id in rows && MayReview(d, rows[id], token)
  {
    if pending != [] {
      ReviewedMayReview(d, rows, token, pending[1..]);
      assert pending == [pending[0]] + pending[1..];
    }
  }

  lemma {:induction false} ReviewKeepsOrder(d: Directory, rows: map<RunId, Row>, token: string, order: seq<RunId>)
    requires Distinct(order)
    ensures Subsequence(Reviewed(d, rows, token, PendingRuns(rows, order)), order)
  {
    if order != [] {
      var rest := order[1..];
      assert forall i, j :: 0 <= i < j < |rest| ==> rest[i] == order[i + 1] && rest[j] == order[j + 1];
      assert order[0] !in rest by { assert forall i :: 0 <= i < |rest| ==> rest[i] == order[i + 1]; }
      ReviewKeepsOrder(d, rows, token, rest);
      PendingAreWaiting(rows, rest);
      ReviewedMayReview(d, rows, token, PendingRuns(rows, rest));
      ReviewOfFirst(d, rows, token, order);
    }
  }

  lemma ReviewOfFirst(d: Directory, rows: map<RunId, Row>, token: string, order: seq<RunId>)
    requires order != []
    ensures var later := Reviewed(d, rows, token, PendingRuns(rows, order[1..]));
            Reviewed(d, rows, token, PendingRuns(rows, order)) ==
              if order[0] in rows && MayReview(d, rows[order[0]], token) then [order[0]] + later else later
  {
    var later := PendingRuns(rows, order[1..]);
    assert ([order[0]] + later)[1..] == later;
  }

  /** After every command history `review` lists, oldest first, exactly the runs on
      which `approve` would pass its checks. */
  lemma ReviewIsExact(d: Directory, trace: seq<System>, commands: seq<Command>, k: nat, token: string)
    requires IsHistory(d, trace, commands) && k < |trace|
    ensures forall id :: id in ReviewList(d, trace[k], token) <==> ApprovalCheck(d, trace[k], id, token).Success?
    ensures Subsequence(ReviewList(d, trace[k], token), trace[k].order)
  {
    var sys := trace[k];
    HistoryKeeps(d, trace, commands, k);
    PendingAreWaiting(sys.rows, sys.order);
    ReviewedMayReview(d, sys.rows, token, PendingRuns(sys.rows, sys.order));
    ReviewKeepsOrder(d, sys.rows, token, sys.order);
  }

  /** And approving any of them moves it past the gate it waits at. */
  lemma ReviewedRunAdvances(d: Directory, trace: seq<System>, commands: seq<Command>, k: nat, c: Command, sys': System)
    requires IsHistory(d, trace, commands) && k < |trace|
    requires c.Decide? && c.yes && c.runId in ReviewList(d, trace[k], c.token) && Step(d, trace[k], c, sys')
    ensures GatesPassed(sys', c.runId) == GatesPassed(trace[k], c.runId) + 1
  {
    ReviewIsExact(d, trace, commands, k, c.token);
    HistoryKeeps(d, trace, commands, k);
    StepCounts(d, trace[k], c, sys', c.runId);
  }
}
