/** The 14-node pipeline: its graph, its gates, and what the executor theorem says about it. */
module GreenField {
  import opened Wrappers
  import opened BarrierGraph

  datatype Node =
    | RequirementsAnalysis | ArchitectureDesign | ArchitectureGate
    | ImplementationPlan | TestPlan | Implementation | SchemaGate
    | UnitTests | IntegrationTests | TestsGate | Documentation
    | PrGate | ReleaseReadiness | ReleaseGate

  /** What a node leaves in `stage_artifacts` under its own name. */
  datatype Artifact =
    | StageOutput(json: string)
    | StageFailed(error: string)
    | GateDecision(approved: bool, approver: string)

  type Update = Write<Node, Artifact>
  type RunState = State<Node, Artifact>

  predicate IsGate(n: Node) {
    n.ArchitectureGate? || n.SchemaGate? || n.TestsGate? || n.PrGate? || n.ReleaseGate?
  }

  // ---- building the graph ----------------------------------------------

  /** The mutable graph builder of the graph library. */
  class StateGraph {
    var nodes: set<Node>
    var entry: Option<Node>
    var edges: set<Edge<Node>>

    constructor ()
      ensures nodes == {} && entry == None && edges == {}
    {
      nodes, entry, edges := {}, None, {};
    }

    method AddNode(name: Node)
      modifies this`nodes
      ensures nodes == old(nodes) + {name}
    {
      nodes := nodes + {name};
    }

    method AddStart(target: Node)
      modifies this`entry
      ensures entry == Some(target)
    {
      entry := Some(target);
    }

    /** A one-source edge, or a barrier when `sources` has several nodes. */
    method AddEdge(sources: set<Node>, target: Node)
      modifies this`edges
      ensures edges == old(edges) + {Edge(sources, None, target)}
    {
      edges := edges + {Edge(sources, None, target)};
    }

    /** Both outcomes of a routing function that tests one flag. */
    method AddConditionalEdges(source: Node, ifTrue: set<Node>, ifFalse: set<Node>)
      modifies this`edges
      ensures edges == old(edges) + (set t | t in ifTrue :: Edge({source}, Some(true), t))
                                  + (set t | t in ifFalse :: Edge({source}, Some(false), t))
    {
      edges := edges + (set t | t in ifTrue :: Edge({source}, Some(true), t))
                     + (set t | t in ifFalse :: Edge({source}, Some(false), t));
    }
  }

  function NodeNames(): seq<Node> {
    [RequirementsAnalysis, ArchitectureDesign, ArchitectureGate, ImplementationPlan, TestPlan,
     Implementation, SchemaGate, UnitTests, IntegrationTests, TestsGate, Documentation,
     PrGate, ReleaseReadiness, ReleaseGate]
  }

  function Arc(source: Node, target: Node): Edge<Node> {
    Edge({source}, None, target)
  }

  function Routed(schemaChange: bool, target: Node): Edge<Node> {
    Edge({Implementation}, Some(schemaChange), target)
  }

  function PlanningEdges(): set<Edge<Node>> {
    {Arc(RequirementsAnalysis, ArchitectureDesign),
     Arc(ArchitectureDesign, ArchitectureGate),
     Arc(ArchitectureGate, ImplementationPlan),
     Arc(ArchitectureGate, TestPlan),
     Edge({ImplementationPlan, TestPlan}, None, Implementation)}
  }

  function TestingEdges(): set<Edge<Node>> {
    {Routed(true, SchemaGate),
     Routed(false, UnitTests),
     Routed(false, IntegrationTests),
     Arc(SchemaGate, UnitTests),
     Arc(SchemaGate, IntegrationTests),
     Edge({UnitTests, IntegrationTests}, None, TestsGate)}
  }

  function ReleaseEdges(): set<Edge<Node>> {
    {Arc(TestsGate, Documentation),
     Arc(Documentation, PrGate),
     Arc(PrGate, ReleaseReadiness),
     Arc(ReleaseReadiness, ReleaseGate)}
  }

  function Pipeline(): Graph<Node> {
    Graph(RequirementsAnalysis, PlanningEdges() + TestingEdges() + ReleaseEdges())
  }

  method BuildGraph(names: seq<Node>) returns (graph: StateGraph)
    ensures fresh(graph)
    ensures graph.nodes == set n | n in names
    ensures graph.entry == Some(Pipeline().entry) && graph.edges == Pipeline().edges
  {
    graph := new StateGraph();
    for i := 0 to |names|
      invariant fresh(graph) && graph.nodes == set n | n in names[..i]
      invariant graph.entry == None && graph.edges == {}
    {
      graph.AddNode(names[i]);
      assert names[..i + 1] == names[..i] + [names[i]];
    }
    assert names[..|names|] == names;
    graph.AddStart(RequirementsAnalysis);
    AddPlanningEdges(graph);
    AddTestingEdges(graph);
    AddReleaseEdges(graph);
  }

  method AddPlanningEdges(graph: StateGraph)
    modifies graph`edges
    ensures graph.edges == old(graph.edges) + PlanningEdges()
  {
    graph.AddEdge({RequirementsAnalysis}, ArchitectureDesign);
    graph.AddEdge({ArchitectureDesign}, ArchitectureGate);
    graph.AddEdge({ArchitectureGate}, ImplementationPlan);
    graph.AddEdge({ArchitectureGate}, TestPlan);
    graph.AddEdge({ImplementationPlan, TestPlan}, Implementation);
  }

  method AddTestingEdges(graph: StateGraph)
    modifies graph`edges
    ensures graph.edges == old(graph.edges) + TestingEdges()
  {
    graph.AddConditionalEdges(Implementation, {SchemaGate}, {UnitTests, IntegrationTests});
    graph.AddEdge({SchemaGate}, UnitTests);
    graph.AddEdge({SchemaGate}, IntegrationTests);
    graph.AddEdge({UnitTests, IntegrationTests}, TestsGate);
  }

  method AddReleaseEdges(graph: StateGraph)
    modifies graph`edges
    ensures graph.edges == old(graph.edges) + ReleaseEdges()
  {
    graph.AddEdge({TestsGate}, Documentation);
    graph.AddEdge({Documentation}, PrGate);
    graph.AddEdge({PrGate}, ReleaseReadiness);
    graph.AddEdge({ReleaseReadiness}, ReleaseGate);
  }

  // ---- the static check ------------------------------------------------

  /** The schema gate runs only after `implementation` has answered true. */
  function Context(n: Node): map<Node, bool> {
    if n.SchemaGate? then map[Implementation := true] else map[]
  }

  /** The place of a node in the longest path through the pipeline. */
  function Level(n: Node): nat {
    match n
    case RequirementsAnalysis => 0
    case ArchitectureDesign => 1
    case ArchitectureGate => 2
    case ImplementationPlan | TestPlan => 3
    case Implementation => 4
    case SchemaGate => 5
    case UnitTests | IntegrationTests => 6
    case TestsGate => 7
    case Documentation => 8
    case PrGate => 9
    case ReleaseReadiness => 10
    case ReleaseGate => 11
  }

  predicate Below(d: Node, n: Node) {
    Level(d) < Level(n) && d != SchemaGate
  }

  /** What is always executed before a node: every lower level but the schema gate. */
  function Before(n: Node): set<Node> {
    set d: Node | Below(d, n)
  }

  function InEdges(n: Node): set<Edge<Node>> {
    match n
    case RequirementsAnalysis => {}
    case ArchitectureDesign => {Arc(RequirementsAnalysis, n)}
    case ArchitectureGate => {Arc(ArchitectureDesign, n)}
    case ImplementationPlan | TestPlan => {Arc(ArchitectureGate, n)}
    case Implementation => {Edge({ImplementationPlan, TestPlan}, None, n)}
    case SchemaGate => {Routed(true, n)}
    case UnitTests | IntegrationTests => {Routed(false, n), Arc(SchemaGate, n)}
    case TestsGate => {Edge({UnitTests, IntegrationTests}, None, n)}
    case Documentation => {Arc(TestsGate, n)}
    case PrGate => {Arc(Documentation, n)}
    case ReleaseReadiness => {Arc(PrGate, n)}
    case ReleaseGate => {Arc(ReleaseReadiness, n)}
  }

  lemma EdgesInto(e: Edge<Node>)
    ensures e in Pipeline().edges <==> e in InEdges(e.target)
  {
  }

  /** Every edge leads to a higher level, so the pipeline has no cycle. */
  lemma PipelineIsAcyclic(e: Edge<Node>, source: Node)
    requires e in Pipeline().edges && source in e.sources
    ensures Level(source) < Level(e.target)
  {
    EdgesInto(e);
    InEdgesRise(e, source);
  }

  lemma InEdgesRise(e: Edge<Node>, source: Node)
    requires e in InEdges(e.target) && source in e.sources
    ensures Level(source) < Level(e.target)
  {
  }

  lemma PipelineChecked()
    ensures Checked(Pipeline(), Context, Before)
  {
    forall e | e in Pipeline().edges ensures e in InEdges(e.target) { EdgesInto(e); }
    CheckedByTarget(Pipeline());
  }

  lemma CheckedByTarget(g: Graph<Node>)
    requires g.entry == RequirementsAnalysis
    requires forall e :: e in g.edges ==> e in InEdges(e.target)
    ensures Checked(g, Context, Before)
  {
    forall e | e in g.edges
      ensures e.sources != {} && e.target != g.entry
      ensures forall b :: b in Context(e.target) ==> Implies(e, Context, b, Context(e.target)[b])
      ensures forall d :: d in Before(e.target) ==> exists n :: n in e.sources && (d == n || d in Before(n))
    {
      CheckedEdge(e);
    }
    forall e, f | e in g.edges && f in g.edges && e != f && e.target == f.target
      ensures exists b, v :: Implies(e, Context, b, v) && Implies(f, Context, b, !v)
    {
      CheckedExclusive(e, f);
    }
  }

  lemma CheckedEdge(e: Edge<Node>)
    requires e in InEdges(e.target)
    ensures e.sources != {} && e.target != RequirementsAnalysis
    ensures forall b :: b in Context(e.target) ==> Implies(e, Context, b, Context(e.target)[b])
    ensures forall d :: d in Before(e.target) ==> exists n :: n in e.sources && (d == n || d in Before(n))
  {
    forall d | d in Before(e.target) ensures exists n :: n in e.sources && (d == n || d in Before(n)) {
      var n := CheckedBefore(e, d);
    }
  }

  lemma CheckedBefore(e: Edge<Node>, d: Node) returns (n: Node)
    requires e in InEdges(e.target) && d in Before(e.target)
    ensures n in e.sources && (d == n || d in Before(n))
  {
    if d in e.sources {
      n := d;
    } else {
      n :| n in e.sources;
      SourcesAreNext(e, n, d);
    }
  }

  /** Nothing lies between a node and the sources of an edge into it. */
  lemma SourcesAreNext(e: Edge<Node>, n: Node, d: Node)
    requires e in InEdges(e.target) && n in e.sources && d !in e.sources && Below(d, e.target)
    ensures Below(d, n)
  {
  }

  lemma CheckedExclusive(e: Edge<Node>, f: Edge<Node>)
    requires e in InEdges(e.target) && f in InEdges(f.target) && e != f && e.target == f.target
    ensures exists b, v :: Implies(e, Context, b, v) && Implies(f, Context, b, !v)
  {
    var v := e.choice != Some(false);
    assert SchemaGate in Arc(SchemaGate, e.target).sources && Context(SchemaGate)[Implementation];
    assert Implies(e, Context, Implementation, v) && Implies(f, Context, Implementation, !v);
  }

  // ---- what the executor theorem says about this graph -------------------

  ghost predicate Reachable(s: RunState) {
    exists events :: Feasible(Pipeline(), Start(Pipeline()), events) && s == Execute(Pipeline(), Start(Pipeline()), events)
  }

  ghost predicate PipelineInv(s: RunState) {
    Inv(Pipeline(), Context, Before, s)
  }

  lemma ReachableInv(s: RunState)
    requires Reachable(s)
    ensures PipelineInv(s)
  {
    var events :| Feasible(Pipeline(), Start(Pipeline()), events) && s == Execute(Pipeline(), Start(Pipeline()), events);
    PipelineChecked();
    StartInv(Pipeline(), Context, Before, Start<Node, Artifact>(Pipeline()));
    ExecuteInv(Pipeline(), Context, Before, Start(Pipeline()), events);
  }

  ghost predicate MayRun(n: Node, prior: seq<Node>, taken: map<Node, bool>) {
    Justified(Pipeline(), Context, Before, n, prior, taken)
  }

  lemma EnablingEdge(n: Node, prior: seq<Node>, taken: map<Node, bool>) returns (e: Edge<Node>)
    requires MayRun(n, prior, taken) && n != RequirementsAnalysis
    ensures e in InEdges(n) && Enabled(e, prior, taken)
  {
    e :| e in Pipeline().edges && e.target == n && Enabled(e, prior, taken);
    EdgesInto(e);
  }

  /** A test stage runs straight after `implementation` or after the schema gate,
      and which of the two is what `implementation` answered. */
  lemma TestStageRoute(n: Node, prior: seq<Node>, taken: map<Node, bool>)
    requires n.UnitTests? || n.IntegrationTests?
    requires MayRun(n, prior, taken)
    ensures SchemaGate in prior || (Implementation in taken && !taken[Implementation])
  {
    var e := EnablingEdge(n, prior, taken);
    if e == Arc(SchemaGate, n) {
      assert SchemaGate in e.sources;
    } else {
      assert Implementation in e.sources && Answers(e, taken[Implementation]);
    }
  }

  lemma MayRunAt(s: RunState, n: Node)
    requires PipelineInv(s) && (n in s.group || n in Started(s))
    ensures MayRun(n, s.executed, s.taken)
  {
    if n in Started(s) { StartedJustified(Pipeline(), Context, Before, s, n); }
  }

  ghost predicate Live(s: RunState, n: Node) {
    n in s.group || n in s.executed || n in Names(s.finished)
  }

  /** The pipeline's order, as seen from one state: every node that has started or
      is pending has everything before it executed, and exactly one of the two
      routes out of `implementation` is taken. */
  ghost predicate Ordered(s: RunState) {
    && Distinct(Started(s)) && (forall n :: n in s.group ==> n !in s.executed && n !in Names(s.finished))
    && (forall n :: n in Names(s.finished) ==> n !in s.executed)
    && (forall n :: n in s.artifacts <==> n in s.executed)
    && (forall n :: n in s.taken <==> n in s.executed)
    && (forall n, d {:trigger Below(d, n)} :: Live(s, n) && Below(d, n) ==> d in s.executed)
    && (Live(s, SchemaGate) ==> Implementation in s.taken && s.taken[Implementation])
    && (Live(s, UnitTests) || Live(s, IntegrationTests) ==>
          SchemaGate in s.executed || (Implementation in s.taken && !s.taken[Implementation]))
  }

  lemma LowerExecuted(s: RunState, n: Node, d: Node)
    requires PipelineInv(s) && Live(s, n) && Below(d, n)
    ensures d in s.executed
  {
    MayRunAt(s, n);
    MayRunAfter(n, s.executed, s.taken, d);
  }

  lemma MayRunAfter(n: Node, prior: seq<Node>, taken: map<Node, bool>, d: Node)
    requires MayRun(n, prior, taken) && Below(d, n)
    ensures d in prior
  {
    assert d in Before(n);
  }

  lemma SchemaGateRoute(s: RunState)
    requires PipelineInv(s) && Live(s, SchemaGate)
    ensures Implementation in s.taken && s.taken[Implementation]
  {
    MayRunAt(s, SchemaGate);
    assert Implementation in Context(SchemaGate);
  }

  lemma TestStageRoutes(s: RunState, n: Node)
    requires PipelineInv(s) && Live(s, n) && (n.UnitTests? || n.IntegrationTests?)
    ensures SchemaGate in s.executed || (Implementation in s.taken && !s.taken[Implementation])
  {
    MayRunAt(s, n);
    TestStageRoute(n, s.executed, s.taken);
  }

  lemma ReachableIsOrdered(s: RunState)
    requires PipelineInv(s)
    ensures Ordered(s)
  {
    FinishedIsNew(s);
    forall n, d | Live(s, n) && Below(d, n) ensures d in s.executed {
      LowerExecuted(s, n, d);
    }
    if Live(s, SchemaGate) { SchemaGateRoute(s); }
    if Live(s, UnitTests) { TestStageRoutes(s, UnitTests); }
    if Live(s, IntegrationTests) { TestStageRoutes(s, IntegrationTests); }
  }

  /** Of two live nodes the lower one has been executed, the schema gate included. */
  lemma LowerLiveExecuted(s: RunState, low: Node, high: Node)
    requires Ordered(s) && Live(s, low) && Live(s, high) && Level(low) < Level(high)
    ensures low in s.executed
  {
    if low.SchemaGate? {
      assert Live(s, UnitTests) || Live(s, IntegrationTests) by {
        assert high.UnitTests? || high.IntegrationTests? || Below(UnitTests, high);
      }
    } else {
      assert Below(low, high);
    }
  }

  lemma GateExcludes(s: RunState, gate: Node, n: Node)
    requires Ordered(s) && IsGate(gate) && gate in s.group
    requires Live(s, n) && n !in s.executed
    ensures n == gate
  {
    assert Live(s, gate);
    if Level(n) < Level(gate) { LowerLiveExecuted(s, n, gate); }
    if Level(gate) < Level(n) { LowerLiveExecuted(s, gate, n); }
    GateLevel(gate, n);
  }

  lemma GateLevel(gate: Node, n: Node)
    requires IsGate(gate) && Level(n) == Level(gate)
    ensures n == gate
  {
  }

  /** A pending gate is the one and only pending node. */
  lemma GateAlone(s: RunState, gate: Node)
    requires Ordered(s) && IsGate(gate) && gate in s.group
    ensures s.group == {gate} && s.finished == []
  {
    forall n | n in s.group ensures n == gate { GateExcludes(s, gate, n); }
    if s.finished != [] {
      var n := s.finished[0].node;
      assert n == Names(s.finished)[0] && n in Names(s.finished);
      GateExcludes(s, gate, n);
    }
  }

  ghost function ExecutedGates(s: RunState): set<Node> {
    set n: Node | IsGate(n) && n in s.executed
  }

  /** The gates a run passes, given what `implementation` answered. */
  function RequiredGates(schemaChange: bool): set<Node> {
    {ArchitectureGate, TestsGate, PrGate, ReleaseGate} + if schemaChange then {SchemaGate} else {}
  }

  ghost predicate SchemaChange(s: RunState) {
    Implementation in s.taken && s.taken[Implementation]
  }

  lemma GateBelow(s: RunState, gate: Node, n: Node)
    requires Ordered(s) && IsGate(gate) && gate in s.group && IsGate(n)
    ensures n in s.executed <==> (Level(n) < Level(gate) && n in RequiredGates(SchemaChange(s)))
  {
    assert Live(s, gate);
    if n in s.executed {
      assert Live(s, n) && !Below(gate, n);
      assert Below(UnitTests, n) ==> Live(s, UnitTests);
    } else if n.SchemaGate? && Level(n) < Level(gate) {
      assert Below(UnitTests, gate) && Live(s, UnitTests);
    } else {
      assert !Below(n, gate);
    }
  }

  /** While a gate is pending, the executed gates are exactly the required ones below it. */
  lemma GatesBelow(s: RunState, gate: Node)
    requires Ordered(s) && IsGate(gate) && gate in s.group
    ensures ExecutedGates(s) == set n | n in RequiredGates(SchemaChange(s)) && Level(n) < Level(gate)
  {
    var required := set n | n in RequiredGates(SchemaChange(s)) && Level(n) < Level(gate);
    forall n: Node ensures n in ExecutedGates(s) <==> n in required {
      if IsGate(n) { GateBelow(s, gate, n); }
    }
  }

  /** No edge is left to fire. */
  ghost predicate Closed(executed: seq<Node>, taken: map<Node, bool>) {
    && RequirementsAnalysis in executed
    && (forall n :: n in taken <==> n in executed)
    && (forall e: Edge<Node> {:trigger Enabled(e, executed, taken)} ::
          e in InEdges(e.target) && Enabled(e, executed, taken) ==> e.target in executed)
  }

  lemma NothingPendingIsClosed(s: RunState)
    requires PipelineInv(s) && s.group == {}
    ensures Closed(s.executed, s.taken)
  {
    assert Started(s) == s.executed;
    forall e: Edge<Node> | e in InEdges(e.target) && Enabled(e, s.executed, s.taken) ensures e.target in s.executed {
      EdgesInto(e);
    }
  }

  lemma FollowArc(executed: seq<Node>, taken: map<Node, bool>, source: Node, target: Node)
    requires Closed(executed, taken) && source in executed
    requires Arc(source, target) in InEdges(target)
    ensures target in executed
  {
    assert Enabled(Arc(source, target), executed, taken);
  }

  lemma FollowAll(executed: seq<Node>, taken: map<Node, bool>)
    requires Closed(executed, taken)
    ensures forall n: Node :: n != SchemaGate ==> n in executed
    ensures taken[Implementation] ==> SchemaGate in executed
  {
    FollowArc(executed, taken, RequirementsAnalysis, ArchitectureDesign);
    FollowArc(executed, taken, ArchitectureDesign, ArchitectureGate);
    FollowArc(executed, taken, ArchitectureGate, ImplementationPlan);
    FollowArc(executed, taken, ArchitectureGate, TestPlan);
    assert Enabled(Edge({ImplementationPlan, TestPlan}, None, Implementation), executed, taken);
    if taken[Implementation] {
      assert Enabled(Routed(true, SchemaGate), executed, taken);
      FollowArc(executed, taken, SchemaGate, UnitTests);
      FollowArc(executed, taken, SchemaGate, IntegrationTests);
    } else {
      assert Enabled(Routed(false, UnitTests), executed, taken);
      assert Enabled(Routed(false, IntegrationTests), executed, taken);
    }
    assert Enabled(Edge({UnitTests, IntegrationTests}, None, TestsGate), executed, taken);
    FollowArc(executed, taken, TestsGate, Documentation);
    FollowArc(executed, taken, Documentation, PrGate);
    FollowArc(executed, taken, PrGate, ReleaseReadiness);
    FollowArc(executed, taken, ReleaseReadiness, ReleaseGate);
  }

  lemma ClosedRun(s: RunState)
    requires Ordered(s) && Closed(s.executed, s.taken)
    ensures forall n: Node :: n in s.executed <==> (n == SchemaGate ==> SchemaChange(s))
    ensures ExecutedGates(s) == RequiredGates(SchemaChange(s))
  {
    FollowAll(s.executed, s.taken);
    assert SchemaGate in s.executed ==> Live(s, SchemaGate);
  }

  /** A run that has nothing pending has executed the whole pipeline, the schema
      gate exactly when `implementation` asked for it. */
  lemma CompletedRun(s: RunState)
    requires PipelineInv(s) && s.group == {}
    ensures forall n: Node :: n in s.executed <==> (n == SchemaGate ==> SchemaChange(s))
    ensures ExecutedGates(s) == RequiredGates(SchemaChange(s))
  {
    NothingPendingIsClosed(s);
    ReachableIsOrdered(s);
    ClosedRun(s);
  }

  // ---- the same facts for reachable runs -----------------------------------

  function Begin(): RunState {
    Start(Pipeline())
  }

  predicate CanFinish(s: RunState, events: seq<Update>) {
    Feasible(Pipeline(), s, events)
  }

  function Run(s: RunState, events: seq<Update>): RunState
    requires CanFinish(s, events)
  {
    Execute(Pipeline(), s, events)
  }

  lemma ReachableExtends(s: RunState, events: seq<Update>)
    requires Reachable(s) && CanFinish(s, events)
    ensures Reachable(Run(s, events))
  {
    var past :| Feasible(Pipeline(), Start(Pipeline()), past) && s == Execute(Pipeline(), Start(Pipeline()), past);
    ExecuteAppend(Pipeline(), Start(Pipeline()), past, events);
  }

  /** Over any events, the log grows by exactly the nodes that finished, and no
      artifact or routing answer recorded earlier is changed. */
  lemma NothingOverwritten(s: RunState, events: seq<Update>)
    requires Reachable(s) && CanFinish(s, events)
    ensures Grew(s, Run(s, events), Names(events))
  {
    ReachableInv(s);
    PipelineChecked();
    ExecuteGrows(Pipeline(), Context, Before, s, events);
  }

  /** The order of the pipeline in every reachable state, under any routing answer
      and any finishing order: a node runs at most once, only after every node
      below it, and exactly one of the two routes out of `implementation` is run. */
  lemma PipelineOrder(s: RunState)
    requires Reachable(s)
    ensures Ordered(s)
    ensures forall i, d :: 0 <= i < |s.executed| && Below(d, s.executed[i]) ==> d in s.executed[..i]
    ensures s.group == {} ==>
              && s.finished == []
              && (forall n: Node :: n in s.executed <==> (n == SchemaGate ==> SchemaChange(s)))
              && ExecutedGates(s) == RequiredGates(SchemaChange(s))
  {
    ReachableInv(s);
    ReachableIsOrdered(s);
    if s.group == {} { CompletedRun(s); }
    forall i, d | 0 <= i < |s.executed| && Below(d, s.executed[i]) ensures d in s.executed[..i] {
      ExecutedInOrder(s, i, d);
    }
  }

  lemma ExecutedInOrder(s: RunState, i: nat, d: Node)
    requires PipelineInv(s) && i < |s.executed| && Below(d, s.executed[i])
    ensures d in s.executed[..i]
  {
    assert MayRun(s.executed[i], s.executed[..i], s.taken);
    assert d in Before(s.executed[i]);
  }

  // ---- prior artifacts ------------------------------------------------------

  /** Which earlier artifacts the prompt of a stage is built from. */
  function PriorStages(stage: Node): seq<Node> {
    match stage
    case ArchitectureDesign => [RequirementsAnalysis]
    case ImplementationPlan | TestPlan => [ArchitectureDesign]
    case Implementation => [ArchitectureDesign, ImplementationPlan]
    case UnitTests | IntegrationTests => [ArchitectureDesign, Implementation]
    case Documentation => [Implementation]
    case ReleaseReadiness => [ArchitectureDesign, Implementation, UnitTests]
    case _ => []
  }

  /** The artifacts put into the prompt: a dependency without one is left out. */
  function PriorArtifacts(deps: seq<Node>, artifacts: map<Node, Artifact>): seq<(Node, Artifact)> {
    if deps == [] then []
    else if deps[0] in artifacts then [(deps[0], artifacts[deps[0]])] + PriorArtifacts(deps[1..], artifacts)
    else PriorArtifacts(deps[1..], artifacts)
  }

  lemma {:induction false} NothingLeftOut(deps: seq<Node>, artifacts: map<Node, Artifact>)
    requires forall d :: d in deps ==> d in artifacts
    ensures PriorArtifacts(deps, artifacts) == seq(|deps|, i requires 0 <= i < |deps| => (deps[i], artifacts[deps[i]]))
  {
    if deps != [] { NothingLeftOut(deps[1..], artifacts); }
  }

  ghost predicate Shows(shown: seq<(Node, Artifact)>, n: Node) {
    exists i :: 0 <= i < |shown| && shown[i].0 == n
  }

  lemma PriorStageExecuted(s: RunState, stage: Node, d: Node)
    requires Ordered(s) && stage in s.group && d in PriorStages(stage)
    ensures d in s.artifacts
  {
    assert Live(s, stage) && Below(d, stage);
  }

  /** Whenever a stage runs, no declared dependency is silently dropped from its prompt. */
  lemma PromptIsComplete(s: RunState, stage: Node)
    requires Reachable(s) && stage in s.group
    ensures var shown := PriorArtifacts(PriorStages(stage), s.artifacts);
            && (stage == ArchitectureDesign ==> Shows(shown, RequirementsAnalysis))
            && (stage in {ImplementationPlan, TestPlan, Implementation, UnitTests, IntegrationTests, ReleaseReadiness} ==>
                  Shows(shown, ArchitectureDesign))
            && (stage == Implementation ==> Shows(shown, ImplementationPlan))
            && (stage in {UnitTests, IntegrationTests, Documentation, ReleaseReadiness} ==> Shows(shown, Implementation))
            && (stage == ReleaseReadiness ==> Shows(shown, UnitTests))
    ensures var deps := PriorStages(stage);
            && (forall d :: d in deps ==> d in s.artifacts)
            && PriorArtifacts(deps, s.artifacts) == seq(|deps|, i requires 0 <= i < |deps| => (deps[i], s.artifacts[deps[i]]))
  {
    assert Ordered(s) by { PipelineOrder(s); }
    forall d | d in PriorStages(stage) ensures d in s.artifacts { PriorStageExecuted(s, stage, d); }
    NothingLeftOut(PriorStages(stage), s.artifacts);
    ShowsAll(PriorStages(stage), PriorArtifacts(PriorStages(stage), s.artifacts));
    DependsOn(stage);
  }

  lemma ShowsAll(deps: seq<Node>, shown: seq<(Node, Artifact)>)
    requires |shown| == |deps| && forall i :: 0 <= i < |deps| ==> shown[i].0 == deps[i]
    ensures forall d :: d in deps ==> Shows(shown, d)
  {
  }

  lemma DependsOn(stage: Node)
    ensures var deps := PriorStages(stage);
            && (stage == ArchitectureDesign ==> RequirementsAnalysis in deps)
            && (stage in {ImplementationPlan, TestPlan, Implementation, UnitTests, IntegrationTests, ReleaseReadiness} ==>
                  ArchitectureDesign in deps)
            && (stage == Implementation ==> ImplementationPlan in deps)
            && (stage in {UnitTests, IntegrationTests, Documentation, ReleaseReadiness} ==> Implementation in deps)
            && (stage == ReleaseReadiness ==> UnitTests in deps)
  {
  }

  // ---- how far a run can go -------------------------------------------------

  /** Each finished node uses up one of the names. */
  ghost function Remaining(s: RunState): int {
    |NodeNames()| - |Started(s)|
  }

  lemma {:induction false} DistinctSize<T>(s: seq<T>, all: set<T>)
    requires Distinct(s) && forall x :: x in s ==> x in all
    ensures |s| <= |all|
  {
    if s != [] {
      var init, last := s[..|s| - 1], s[|s| - 1];
      assert forall i :: 0 <= i < |init| ==> init[i] == s[i] && init[i] in s;
      assert last in s;
      DistinctSize(init, all - {last});
    }
  }

  lemma AtMostFourteen(s: RunState)
    requires Ordered(s)
    ensures Remaining(s) >= 0
  {
    NamesAreAll();
    var all := set n | n in NodeNames();
    assert |all| <= |NodeNames()| by { SetOfNames(NodeNames()); }
    DistinctSize(Started(s), all);
  }

  lemma {:induction false} SetOfNames(names: seq<Node>)
    ensures |set n | n in names| <= |names|
  {
    if names != [] {
      var init, last := names[..|names| - 1], names[|names| - 1];
      SetOfNames(init);
      assert (set n | n in names) == (set n | n in init) + {last};
    }
  }

  /** The place of a node in the list of names. */
  function Place(n: Node): nat {
    match n
    case RequirementsAnalysis => 0
    case ArchitectureDesign => 1
    case ArchitectureGate => 2
    case ImplementationPlan => 3
    case TestPlan => 4
    case Implementation => 5
    case SchemaGate => 6
    case UnitTests => 7
    case IntegrationTests => 8
    case TestsGate => 9
    case Documentation => 10
    case PrGate => 11
    case ReleaseReadiness => 12
    case ReleaseGate => 13
  }

  /** The fourteen names are all the nodes there are, each once. */
  lemma NamesAreAll()
    ensures |NodeNames()| == 14 && Distinct(NodeNames())
    ensures forall n: Node :: n in NodeNames()
  {
    forall n: Node ensures n in NodeNames() {
      NameAt(n);
    }
    forall i | 0 <= i < 14 ensures Place(NodeNames()[i]) == i {}
  }

  lemma NameAt(n: Node)
    ensures NodeNames()[Place(n)] == n
  {
  }
}
