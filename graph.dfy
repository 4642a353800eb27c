/**
 * The audit workflow: its fixed topology, built step by step on a graph
 * builder, the routing predicate on the aggregator's exit, and the order in
 * which nodes run. The graph engine itself (scheduling, compilation,
 * invocation) is outside the model; a run is modelled as the sequence of
 * supersteps, each the set of nodes the previous one triggers.
 */
module Graph {
  import opened Wrappers

  datatype Node =
    | Start | ContextBuilder | RepoInvestigator | DocAnalyst | EvidenceAggregator
    | VisionInspector | Prosecutor | Defense | TechLead | ChiefJustice | End

  /** The names the nodes are registered under. */
  function NodeName(n: Node): string {
    match n
    case Start => "__start__"
    case ContextBuilder => "context_builder"
    case RepoInvestigator => "repo_investigator"
    case DocAnalyst => "doc_analyst"
    case EvidenceAggregator => "evidence_aggregator"
    case VisionInspector => "vision_inspector"
    case Prosecutor => "prosecutor"
    case Defense => "defense"
    case TechLead => "tech_lead"
    case ChiefJustice => "chief_justice"
    case End => "__end__"
  }

  datatype Edge = Edge(from: Node, to: Node)

  /** `add_conditional_edges(source, no_fatal_error, {True: onTrue, False: onFalse})`. */
  datatype Branch = Branch(source: Node, onTrue: Node, onFalse: Node)

  /** The graph under construction: what has been added so far, in order. */
  class GraphBuilder {
    var nodes: seq<Node>
    var edges: seq<Edge>
    var branches: seq<Branch>

    constructor ()
      ensures nodes == [] && edges == [] && branches == []
    {
      nodes := [];
      edges := [];
      branches := [];
    }

    method AddNode(n: Node)
      modifies this
      ensures nodes == old(nodes) + [n]
      ensures edges == old(edges) && branches == old(branches)
    {
      nodes := nodes + [n];
    }

    method AddEdge(from: Node, to: Node)
      modifies this
      ensures edges == old(edges) + [Edge(from, to)]
      ensures nodes == old(nodes) && branches == old(branches)
    {
      edges := edges + [Edge(from, to)];
    }

    method AddConditionalEdges(source: Node, onTrue: Node, onFalse: Node)
      modifies this
      ensures branches == old(branches) + [Branch(source, onTrue, onFalse)]
      ensures nodes == old(nodes) && edges == old(edges)
    {
      branches := branches + [Branch(source, onTrue, onFalse)];
    }
  }

  const AuditNodes: seq<Node> :=
    [ContextBuilder, RepoInvestigator, DocAnalyst, EvidenceAggregator, VisionInspector,
     Prosecutor, Defense, TechLead, ChiefJustice]

  const AuditEdges: seq<Edge> :=
    [Edge(Start, ContextBuilder),
     Edge(ContextBuilder, RepoInvestigator), Edge(ContextBuilder, DocAnalyst),
     Edge(RepoInvestigator, EvidenceAggregator), Edge(DocAnalyst, EvidenceAggregator),
     Edge(VisionInspector, EvidenceAggregator),
     Edge(Prosecutor, Defense), Edge(Defense, TechLead), Edge(TechLead, ChiefJustice),
     Edge(ChiefJustice, End)]

  const AuditBranches: seq<Branch> := [Branch(EvidenceAggregator, Prosecutor, ChiefJustice)]

  /** `build_audit_graph` up to `compile()`. */
  method BuildAuditGraph() returns (g: GraphBuilder)
    ensures fresh(g)
    ensures g.nodes == AuditNodes && g.edges == AuditEdges && g.branches == AuditBranches
  {
    g := new GraphBuilder();
    AddAuditNodes(g);
    AddAuditEdges(g);
  }

  /** The nine `add_node` calls. */
  method AddAuditNodes(g: GraphBuilder)
    modifies g
    ensures g.nodes == old(g.nodes) + AuditNodes
    ensures g.edges == old(g.edges) && g.branches == old(g.branches)
  {
    g.AddNode(ContextBuilder);
    g.AddNode(RepoInvestigator);
    g.AddNode(DocAnalyst);
    g.AddNode(EvidenceAggregator);
    g.AddNode(VisionInspector);
    g.AddNode(Prosecutor);
    g.AddNode(Defense);
    g.AddNode(TechLead);
    g.AddNode(ChiefJustice);
  }

  /** The `add_edge` and `add_conditional_edges` calls, in source order. */
  method AddAuditEdges(g: GraphBuilder)
    modifies g
    ensures g.edges == old(g.edges) + AuditEdges
    ensures g.branches == old(g.branches) + AuditBranches
    ensures g.nodes == old(g.nodes)
  {
    g.AddEdge(Start, ContextBuilder);
    g.AddEdge(ContextBuilder, RepoInvestigator);
    g.AddEdge(ContextBuilder, DocAnalyst);
    g.AddEdge(RepoInvestigator, EvidenceAggregator);
    g.AddEdge(DocAnalyst, EvidenceAggregator);
    g.AddEdge(VisionInspector, EvidenceAggregator);
    g.AddConditionalEdges(EvidenceAggregator, Prosecutor, ChiefJustice);
    g.AddEdge(Prosecutor, Defense);
    g.AddEdge(Defense, TechLead);
    g.AddEdge(TechLead, ChiefJustice);
    g.AddEdge(ChiefJustice, End);
  }

  /** `no_fatal_error`: `not state.get("has_fatal_error", False)`. */
  function NoFatalError(flag: Option<bool>): (r: bool)
    ensures r <==> flag != Some(true)
  {
    !flag.GetOr(false)
  }

  const AllNodes: set<Node> :=
    {Start, ContextBuilder, RepoInvestigator, DocAnalyst, EvidenceAggregator,
     VisionInspector, Prosecutor, Defense, TechLead, ChiefJustice, End}

  /**
   * Finishing `n` triggers `m`: a plain edge leads from `n` to `m`, or a
   * branch out of `n` picks `m` when the router returns `noFatal`.
   */
  predicate Triggers(edges: seq<Edge>, branches: seq<Branch>, n: Node, m: Node, noFatal: bool) {
    Edge(n, m) in edges
    || exists b :: b in branches && b.source == n && m == (if noFatal then b.onTrue else b.onFalse)
  }

  /** The nodes that `n` triggers. */
  function Successors(edges: seq<Edge>, branches: seq<Branch>, n: Node, noFatal: bool): set<Node> {
    set m | m in AllNodes && Triggers(edges, branches, n, m, noFatal)
  }

  /** The superstep after `active`: every node some active node triggers. */
  function NextStep(edges: seq<Edge>, branches: seq<Branch>, active: set<Node>, noFatal: bool): set<Node> {
    set n, m | n in active && m in AllNodes && Triggers(edges, branches, n, m, noFatal) :: m
  }

  /** The first `steps` supersteps from `active`. */
  function Supersteps(edges: seq<Edge>, branches: seq<Branch>, active: set<Node>, noFatal: bool, steps: nat)
    : (r: seq<set<Node>>)
    ensures |r| == steps
    ensures steps > 0 ==> r[0] == active
    decreases steps
  {
    if steps == 0 then []
    else [active] + Supersteps(edges, branches, NextStep(edges, branches, active, noFatal), noFatal, steps - 1)
  }

  /** The router sends the aggregator to the prosecutor unless the flag is `True`, and to the chief justice if it is. */
  lemma AggregatorRoute(fatal: Option<bool>)
    ensures Successors(AuditEdges, AuditBranches, EvidenceAggregator, NoFatalError(fatal))
            == if fatal == Some(true) then {ChiefJustice} else {Prosecutor}
  {
    var nf := NoFatalError(fatal);
    assert AuditBranches[0] in AuditBranches;
    assert Triggers(AuditEdges, AuditBranches, EvidenceAggregator, if nf then Prosecutor else ChiefJustice, nf);
  }

  /** The context builder fans out to both collectors. */
  lemma ContextBuilderFansOut(noFatal: bool)
    ensures Successors(AuditEdges, AuditBranches, ContextBuilder, noFatal) == {RepoInvestigator, DocAnalyst}
  {
    assert Triggers(AuditEdges, AuditBranches, ContextBuilder, RepoInvestigator, noFatal);
    assert Triggers(AuditEdges, AuditBranches, ContextBuilder, DocAnalyst, noFatal);
  }

  /** Both collectors feed the aggregator, and nothing else. */
  lemma CollectorsFanIn(noFatal: bool)
    ensures Successors(AuditEdges, AuditBranches, RepoInvestigator, noFatal) == {EvidenceAggregator}
    ensures Successors(AuditEdges, AuditBranches, DocAnalyst, noFatal) == {EvidenceAggregator}
  {
    assert Triggers(AuditEdges, AuditBranches, RepoInvestigator, EvidenceAggregator, noFatal);
    assert Triggers(AuditEdges, AuditBranches, DocAnalyst, EvidenceAggregator, noFatal);
  }

  /** The prosecutor is triggered only by the aggregator, and only on the non-fatal route. */
  lemma ProsecutorOnlyAfterAggregator(n: Node, noFatal: bool)
    ensures Triggers(AuditEdges, AuditBranches, n, Prosecutor, noFatal) <==> n == EvidenceAggregator && noFatal
  {
    assert AuditBranches[0] in AuditBranches;
  }

  /** The defense is triggered only by the prosecutor, the tech lead only by the defense. */
  lemma JudgesInSequence(n: Node, noFatal: bool)
    ensures Triggers(AuditEdges, AuditBranches, n, Defense, noFatal) <==> n == Prosecutor
    ensures Triggers(AuditEdges, AuditBranches, n, TechLead, noFatal) <==> n == Defense
  {
  }

  /** The chief justice is reached on both routes, and its only successor is the end, which has none. */
  lemma ChiefJusticeEnds(noFatal: bool)
    ensures Triggers(AuditEdges, AuditBranches, TechLead, ChiefJustice, noFatal)
    ensures Triggers(AuditEdges, AuditBranches, EvidenceAggregator, ChiefJustice, false)
    ensures Successors(AuditEdges, AuditBranches, ChiefJustice, noFatal) == {End}
    ensures Successors(AuditEdges, AuditBranches, End, noFatal) == {}
  {
    assert AuditBranches[0] in AuditBranches;
    assert Triggers(AuditEdges, AuditBranches, ChiefJustice, End, noFatal);
  }

  /** `vision_inspector` is registered, but no node triggers it. */
  lemma VisionInspectorUnreachable(n: Node, noFatal: bool)
    ensures VisionInspector in AuditNodes
    ensures !Triggers(AuditEdges, AuditBranches, n, VisionInspector, noFatal)
  {
  }

  lemma StepFromStart(nf: bool)
    ensures NextStep(AuditEdges, AuditBranches, {Start}, nf) == {ContextBuilder}
  {
    assert Triggers(AuditEdges, AuditBranches, Start, ContextBuilder, nf);
  }

  lemma StepFromContextBuilder(nf: bool)
    ensures NextStep(AuditEdges, AuditBranches, {ContextBuilder}, nf) == {RepoInvestigator, DocAnalyst}
  {
    assert Triggers(AuditEdges, AuditBranches, ContextBuilder, RepoInvestigator, nf);
    assert Triggers(AuditEdges, AuditBranches, ContextBuilder, DocAnalyst, nf);
  }

  /** The two collectors run in the same superstep and trigger the aggregator once. */
  lemma StepFromCollectors(nf: bool)
    ensures NextStep(AuditEdges, AuditBranches, {RepoInvestigator, DocAnalyst}, nf) == {EvidenceAggregator}
  {
    assert Triggers(AuditEdges, AuditBranches, RepoInvestigator, EvidenceAggregator, nf);
  }

  lemma StepFromAggregator(nf: bool)
    ensures NextStep(AuditEdges, AuditBranches, {EvidenceAggregator}, nf) == if nf then {Prosecutor} else {ChiefJustice}
  {
    assert AuditBranches[0] in AuditBranches;
    assert Triggers(AuditEdges, AuditBranches, EvidenceAggregator, if nf then Prosecutor else ChiefJustice, nf);
  }

  lemma StepsThroughJudges(nf: bool)
    ensures NextStep(AuditEdges, AuditBranches, {Prosecutor}, nf) == {Defense}
    ensures NextStep(AuditEdges, AuditBranches, {Defense}, nf) == {TechLead}
    ensures NextStep(AuditEdges, AuditBranches, {TechLead}, nf) == {ChiefJustice}
  {
    assert Triggers(AuditEdges, AuditBranches, Prosecutor, Defense, nf);
    assert Triggers(AuditEdges, AuditBranches, Defense, TechLead, nf);
    assert Triggers(AuditEdges, AuditBranches, TechLead, ChiefJustice, nf);
  }

  lemma StepsToEnd(nf: bool)
    ensures NextStep(AuditEdges, AuditBranches, {ChiefJustice}, nf) == {End}
    ensures NextStep(AuditEdges, AuditBranches, {End}, nf) == {}
  {
    assert Triggers(AuditEdges, AuditBranches, ChiefJustice, End, nf);
  }

  /**
   * A run from START. Without a fatal flag the three judges run one after
   * the other, each in a superstep of its own, before the chief justice; with
   * it the aggregator goes straight to the chief justice. The vision
   * inspector is in no superstep.
   */
  lemma {:induction false} AuditRun(fatal: Option<bool>)
    ensures NoFatalError(fatal) ==>
      Supersteps(AuditEdges, AuditBranches, {Start}, NoFatalError(fatal), 10)
      == [{Start}, {ContextBuilder}, {RepoInvestigator, DocAnalyst}, {EvidenceAggregator},
          {Prosecutor}, {Defense}, {TechLead}, {ChiefJustice}, {End}, {}]
    ensures !NoFatalError(fatal) ==>
      Supersteps(AuditEdges, AuditBranches, {Start}, NoFatalError(fatal), 7)
      == [{Start}, {ContextBuilder}, {RepoInvestigator, DocAnalyst}, {EvidenceAggregator},
          {ChiefJustice}, {End}, {}]
  {
    var nf := NoFatalError(fatal);
    if nf {
      RunFromStart(nf, 7);
      RunFromAggregator(nf);
    } else {
      RunFromStart(nf, 4);
      RunFromAggregator(nf);
    }
  }

  /** The first three supersteps, which do not depend on the flag. */
  lemma {:induction false} RunFromStart(nf: bool, steps: nat)
    ensures Supersteps(AuditEdges, AuditBranches, {Start}, nf, steps + 3)
            == [{Start}, {ContextBuilder}, {RepoInvestigator, DocAnalyst}]
               + Supersteps(AuditEdges, AuditBranches, {EvidenceAggregator}, nf, steps)
  {
    var es, bs := AuditEdges, AuditBranches;
    StepFromStart(nf);
    StepFromContextBuilder(nf);
    StepFromCollectors(nf);
    var rest := Supersteps(es, bs, {EvidenceAggregator}, nf, steps);
    assert Supersteps(es, bs, {RepoInvestigator, DocAnalyst}, nf, steps + 1) == [{RepoInvestigator, DocAnalyst}] + rest;
    assert Supersteps(es, bs, {ContextBuilder}, nf, steps + 2)
           == [{ContextBuilder}] + ([{RepoInvestigator, DocAnalyst}] + rest);
  }

  /** The supersteps after the aggregator on each route. */
  lemma {:induction false} RunFromAggregator(nf: bool)
    ensures nf ==> Supersteps(AuditEdges, AuditBranches, {EvidenceAggregator}, nf, 7)
                   == [{EvidenceAggregator}, {Prosecutor}, {Defense}, {TechLead}, {ChiefJustice}, {End}, {}]
    ensures !nf ==> Supersteps(AuditEdges, AuditBranches, {EvidenceAggregator}, nf, 4)
                    == [{EvidenceAggregator}, {ChiefJustice}, {End}, {}]
  {
    var es, bs := AuditEdges, AuditBranches;
    StepFromAggregator(nf);
    RunFromChiefJustice(nf);
    var tail := Supersteps(es, bs, {ChiefJustice}, nf, 3);
    if nf {
      StepsThroughJudges(nf);
      assert Supersteps(es, bs, {TechLead}, nf, 4) == [{TechLead}] + tail;
      assert Supersteps(es, bs, {Defense}, nf, 5) == [{Defense}, {TechLead}] + tail;
      assert Supersteps(es, bs, {Prosecutor}, nf, 6) == [{Prosecutor}, {Defense}, {TechLead}] + tail;
    }
  }

  lemma {:induction false} RunFromChiefJustice(nf: bool)
    ensures Supersteps(AuditEdges, AuditBranches, {ChiefJustice}, nf, 3) == [{ChiefJustice}, {End}, {}]
  {
    StepsToEnd(nf);
    assert Supersteps(AuditEdges, AuditBranches, {}, nf, 1) == [{}];
    assert Supersteps(AuditEdges, AuditBranches, {End}, nf, 2) == [{End}, {}];
  }
}

/**
 * The first node of the workflow: it loads the rubric, falling back to a
 * built-in one, and resets the collections of the state.
 */
module ContextBuilder {
  import opened Wrappers
  import opened Dicts
  import SM = StateModels

  /** The two dimensions used when the rubric file cannot be loaded. */
  function DefaultRubric(): (r: seq<SM.Dimension>)
    ensures |r| == 2
    ensures r[0].id == Some("forensic_accuracy_code") && r[1].id == Some("langgraph_architecture")
    ensures forall k :: 0 <= k < |r| ==> r[k].targetArtifact == Some("github_repo")
  {
    [SM.Dimension(
       Some("forensic_accuracy_code"), Some("Forensic Accuracy (Codebase)"), Some("github_repo"),
       Some("Verify repository structure and implementation"),
       Some([("prosecutor", "Identify missing or broken implementations"),
             ("defense", "Recognize effort and partial implementations"),
             ("tech_lead", "Assess practical viability")])),
     SM.Dimension(
       Some("langgraph_architecture"), Some("LangGraph Architecture"), Some("github_repo"),
       Some("Analyze graph structure and parallelism"),
       Some([("prosecutor", "Flag linear or broken graphs"),
             ("defense", "Appreciate complex state management"),
             ("tech_lead", "Evaluate maintainability")]))]
  }

  /**
   * What opening and parsing the rubric file gave: the file is missing, some
   * other exception (with its message), or a parsed object whose
   * `"dimensions"` entry may be absent.
   */
  datatype RubricFile = Missing | Unparsable(message: string) | Loaded(dimensions: Option<seq<SM.Dimension>>)

  /** `context_builder_node`. */
  function ContextBuilderNode(file: RubricFile): (u: SM.Update)
    ensures u.rubricDimensions.Some? && u.hasFatalError == Some(false)
    ensures u.evidences == Some([]) && u.opinions == Some([]) && u.finalReport == None
    ensures u.errors.Some? && (|u.errors.value| == 0 <==> file.Loaded?) && |u.errors.value| <= 1
    ensures file.Loaded? ==> u.rubricDimensions.value == file.dimensions.GetOr([])
    ensures !file.Loaded? ==> u.rubricDimensions.value == DefaultRubric()
    ensures file.Missing? ==> u.errors.value == ["Rubric file not found, using defaults"]
    ensures file.Unparsable? ==> u.errors.value == ["Error loading rubric: " + file.message]
  {
    match file
    case Loaded(dimensions) =>
      SM.Update(Some(dimensions.GetOr([])), Some([]), Some([]), Some([]), None, Some(false))
    case Missing =>
      SM.Update(Some(DefaultRubric()), Some([]), Some([]), Some(["Rubric file not found, using defaults"]), None, Some(false))
    case Unparsable(message) =>
      SM.Update(Some(DefaultRubric()), Some([]), Some([]), Some(["Error loading rubric: " + message]), None, Some(false))
  }

  /**
   * Merged into the initial state, the context builder sets the rubric,
   * leaves evidence and opinions as they were and adds at most one error.
   */
  lemma {:induction false} ContextBuilderMerge(s: SM.AgentState, file: RubricFile)
    ensures SM.Apply(s, ContextBuilderNode(file)).evidences == s.evidences
    ensures SM.Apply(s, ContextBuilderNode(file)).opinions == s.opinions
    ensures SM.Apply(s, ContextBuilderNode(file)).rubricDimensions == ContextBuilderNode(file).rubricDimensions.value
    ensures |SM.Apply(s, ContextBuilderNode(file)).errors| == |s.errors| + (if file.Loaded? then 0 else 1)
  {
    var u := ContextBuilderNode(file);
    assert UpdateWith(s.evidences, []) == s.evidences;
    assert s.opinions + [] == s.opinions;
  }
}
