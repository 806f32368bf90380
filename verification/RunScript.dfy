/** The executed nodes of a run, written out: a run follows one of eight scripts. */
module RunScript {
  import opened Wrappers
  import opened BarrierGraph
  import opened GreenField

  /** A whole run.  Which of two parallel stages comes first is open; the schema gate is
      passed if `implementation` asks for it. */
  function Script(planFirst: bool, unitFirst: bool, schemaChange: bool): seq<Node> {
    [RequirementsAnalysis, ArchitectureDesign, ArchitectureGate]
    + (if planFirst then [ImplementationPlan, TestPlan] else [TestPlan, ImplementationPlan])
    + [Implementation] + (if schemaChange then [SchemaGate] else [])
    + (if unitFirst then [UnitTests, IntegrationTests] else [IntegrationTests, UnitTests])
    + [TestsGate, Documentation, PrGate, ReleaseReadiness, ReleaseGate]
  }

  /** Where a node stands in it. */
  function Position(n: Node, planFirst: bool, unitFirst: bool, schemaChange: bool): nat {
    var late := if schemaChange then 1 else 0;
    match n
    case RequirementsAnalysis => 0
    case ArchitectureDesign => 1
    case ArchitectureGate => 2
    case ImplementationPlan => if planFirst then 3 else 4
    case TestPlan => if planFirst then 4 else 3
    case Implementation => 5
    case SchemaGate => 6
    case UnitTests => if unitFirst then 6 + late else 7 + late
    case IntegrationTests => if unitFirst then 7 + late else 6 + late
    case TestsGate => 8 + late
    case Documentation => 9 + late
    case PrGate => 10 + late
    case ReleaseReadiness => 11 + late
    case ReleaseGate => 12 + late
  }

  lemma PositionIs(n: Node, p: bool, u: bool, c: bool)
    requires n == SchemaGate ==> c
    ensures Position(n, p, u, c) < |Script(p, u, c)| && Script(p, u, c)[Position(n, p, u, c)] == n
  {
  }

  lemma StandsAt(i: nat, p: bool, u: bool, c: bool)
    requires i < |Script(p, u, c)|
    ensures Position(Script(p, u, c)[i], p, u, c) == i && (Script(p, u, c)[i] == SchemaGate ==> c)
  {
  }

  ghost predicate Precedes(log: seq<Node>, a: Node, b: Node) {
    forall i :: 0 <= i < |log| && log[i] == b ==> a in log[..i]
  }

  /** What a log has to keep to. */
  ghost predicate Follows(log: seq<Node>, schemaChange: bool) {
    && Distinct(log)
    && (forall i, d {:trigger Below(d, log[i])} :: 0 <= i < |log| && Below(d, log[i]) ==> d in log[..i])
    && (SchemaGate in log ==> schemaChange)
    && (schemaChange ==> Precedes(log, SchemaGate, UnitTests) && Precedes(log, SchemaGate, IntegrationTests))
  }

  /** A node does not come while another one should. */
  lemma OutOfTurn(log: seq<Node>, p: bool, u: bool, c: bool, i: nat, m: Node)
    requires Follows(log, c) && i < |log| && (m == SchemaGate ==> c) && m !in log[..i]
    requires p == Precedes(log, ImplementationPlan, TestPlan) && u == Precedes(log, UnitTests, IntegrationTests)
    requires forall n: Node :: n in log[..i] ==> Position(n, p, u, c) < Position(m, p, u, c)
    ensures Position(log[i], p, u, c) <= Position(m, p, u, c)
  {
    var n := log[i];
    if Position(n, p, u, c) > Position(m, p, u, c) && !Below(m, n) {
      if m == SchemaGate { UpToSchemaGate(log, c, i); } else { SameLevel(log, p, u, c, i, m); }
    }
  }

  lemma UpToSchemaGate(log: seq<Node>, c: bool, i: nat)
    requires Follows(log, c) && c && i < |log| && SchemaGate !in log[..i] && UnitTests !in log[..i]
    ensures Level(log[i]) <= Level(SchemaGate)
  {
    assert !Below(UnitTests, log[i]);
  }

  lemma SameLevel(log: seq<Node>, p: bool, u: bool, c: bool, i: nat, m: Node)
    requires i < |log| && m !in log[..i] && m != SchemaGate && !Below(m, log[i])
    requires p == Precedes(log, ImplementationPlan, TestPlan) && u == Precedes(log, UnitTests, IntegrationTests)
    ensures Position(log[i], p, u, c) <= Position(m, p, u, c)
  {
    var n := log[i];
    if n == ImplementationPlan && m == TestPlan && !p { Earlier(log, n, m, i); }
    if n == UnitTests && m == IntegrationTests && !u { Earlier(log, n, m, i); }
  }

  lemma Earlier(log: seq<Node>, a: Node, b: Node, i: nat)
    requires i < |log| && log[i] == a && b !in log[..i] && a != b
    ensures Precedes(log, a, b)
  {
    forall j | 0 <= j < |log| && log[j] == b ensures a in log[..j] {
      assert forall k :: 0 <= k < i ==> log[..i][k] == log[k];
      assert log[..j][i] == a;
    }
  }

  /** The next node of a log that has kept to the script so far. */
  lemma NextInScript(log: seq<Node>, p: bool, u: bool, c: bool, i: nat)
    requires Follows(log, c) && i < |log|
    requires p == Precedes(log, ImplementationPlan, TestPlan) && u == Precedes(log, UnitTests, IntegrationTests)
    requires i <= |Script(p, u, c)| && log[..i] == Script(p, u, c)[..i]
    ensures i < |Script(p, u, c)| && log[i] == Script(p, u, c)[i]
  {
    var script, n := Script(p, u, c), log[i];
    assert n in log;
    PositionIs(n, p, u, c);
    var k := Position(n, p, u, c);
    NotBefore(log, script, i, k);
    var m := script[i];
    StandsAt(i, p, u, c);
    NotYet(log, p, u, c, i);
    OutOfTurn(log, p, u, c, i, m);
  }

  lemma NotBefore(log: seq<Node>, script: seq<Node>, i: nat, k: nat)
    requires Distinct(log) && i < |log| && i <= |script| && log[..i] == script[..i]
    requires k < |script| && script[k] == log[i]
    ensures i <= k
  {
    assert forall j :: 0 <= j < i ==> log[j] == log[..i][j] && script[j] == script[..i][j];
  }

  lemma NotYet(log: seq<Node>, p: bool, u: bool, c: bool, i: nat)
    requires i < |log| && i < |Script(p, u, c)| && log[..i] == Script(p, u, c)[..i]
    ensures Script(p, u, c)[i] !in log[..i]
    ensures forall n :: n in log[..i] ==> Position(n, p, u, c) < i
  {
    forall n | n in log[..i] ensures Position(n, p, u, c) < i {
      var j :| 0 <= j < i && log[..i][j] == n;
      assert Script(p, u, c)[..i][j] == n;
      StandsAt(j, p, u, c);
    }
    StandsAt(i, p, u, c);
  }

  lemma {:induction false} LogIsScripted(log: seq<Node>, p: bool, u: bool, c: bool, i: nat)
    requires Follows(log, c) && i <= |log|
    requires p == Precedes(log, ImplementationPlan, TestPlan) && u == Precedes(log, UnitTests, IntegrationTests)
    ensures i <= |Script(p, u, c)| && log[..i] == Script(p, u, c)[..i]
  {
    if i > 0 {
      LogIsScripted(log, p, u, c, i - 1);
      NextInScript(log, p, u, c, i - 1);
      OneFurther(log, Script(p, u, c), i);
    }
  }

  lemma OneFurther(log: seq<Node>, script: seq<Node>, i: nat)
    requires 0 < i <= |log| && i <= |script| && log[..i - 1] == script[..i - 1] && log[i - 1] == script[i - 1]
    ensures log[..i] == script[..i]
  {
    assert log[..i] == log[..i - 1] + [log[i - 1]] && script[..i] == script[..i - 1] + [script[i - 1]];
  }

  lemma ReachableFollows(s: RunState)
    requires Reachable(s)
    ensures Follows(s.executed, SchemaChange(s))
  {
    PipelineOrder(s);
    ReachableInv(s);
    FinishedIsNew(s);
    if SchemaGate in s.executed { assert Live(s, SchemaGate); }
    if SchemaChange(s) {
      RoutePrecedes(s, UnitTests);
      RoutePrecedes(s, IntegrationTests);
    }
    AllInTurn(s.executed, SchemaChange(s));
  }

  lemma AllInTurn(log: seq<Node>, c: bool)
    requires Distinct(log) && (forall i, d :: 0 <= i < |log| && Below(d, log[i]) ==> d in log[..i])
    requires SchemaGate in log ==> c
    requires c ==> Precedes(log, SchemaGate, UnitTests) && Precedes(log, SchemaGate, IntegrationTests)
    ensures Follows(log, c)
  {
  }

  lemma RoutePrecedes(s: RunState, n: Node)
    requires PipelineInv(s) && SchemaChange(s) && (n == UnitTests || n == IntegrationTests)
    ensures Precedes(s.executed, SchemaGate, n)
  {
    forall i | 0 <= i < |s.executed| && s.executed[i] == n ensures SchemaGate in s.executed[..i] {
      assert MayRun(s.executed[i], s.executed[..i], s.taken);
      TestStageRoute(n, s.executed[..i], s.taken);
    }
  }

  /** In every reachable state the executed nodes are the beginning of a script, the one
      with the schema gate exactly if `implementation` asked for it; and a run stops at
      the end of the script and nowhere else. */
  lemma RunIsScripted(s: RunState)
    requires Reachable(s)
    ensures exists p, u :: s.executed <= Script(p, u, SchemaChange(s)) && (s.group == {} <==> s.executed == Script(p, u, SchemaChange(s)))
  {
    var log, c := s.executed, SchemaChange(s);
    var p, u := Precedes(log, ImplementationPlan, TestPlan), Precedes(log, UnitTests, IntegrationTests);
    ReachableFollows(s);
    LogIsScripted(log, p, u, c, |log|);
    assert log[..|log|] == log;
    EndOfScript(s, p, u);
  }

  lemma EndOfScript(s: RunState, p: bool, u: bool)
    requires Reachable(s) && s.executed <= Script(p, u, SchemaChange(s))
    ensures s.group == {} <==> s.executed == Script(p, u, SchemaChange(s))
  {
    var log, c := s.executed, SchemaChange(s);
    PipelineOrder(s);
    if s.group == {} && |log| < |Script(p, u, c)| {
      NotYetDone(log, p, u, c);
    }
    if n :| n in s.group {
      assert Live(s, n);
      ScriptHas(n, p, u, c);
    }
  }

  lemma ScriptHas(n: Node, p: bool, u: bool, c: bool)
    requires n == SchemaGate ==> c
    ensures n in Script(p, u, c)
  {
    PositionIs(n, p, u, c);
  }

  lemma NotYetDone(log: seq<Node>, p: bool, u: bool, c: bool)
    requires log <= Script(p, u, c) && |log| < |Script(p, u, c)|
    ensures ReleaseGate !in log
  {
    forall i | 0 <= i < |log| ensures log[i] != ReleaseGate { StandsAt(i, p, u, c); }
  }
}
