/**
 * The document workflow: the fixed graph of pipeline nodes, the routing
 * after the decider, the construction check and the mapping of the final
 * state to the result the service reports.
 */
module DocumentWorkflow {
  import opened Wrappers

  /** The nodes of the workflow graph. */
  datatype NodeName =
    | DataLoader
    | ChangeAnalyzer
    | DocumentDecider
    | RepositoryAnalyzer
    | FileParser
    | FileSummarizer
    | DocumentGenerator
    | FullRepositoryDocumentGenerator
    | DocumentSaver

  /** Where an edge leads: a node or the end of the run. */
  datatype Target = To(node: NodeName) | End

  /** A conditional edge: the node chosen when `should_update` holds, and the other one. */
  datatype Branch = Branch(whenUpdate: NodeName, otherwise: NodeName)

  /** `route_after_decider`: only `should_update` decides, `False` when absent. */
  function RouteAfterDecider(shouldUpdate: bool): (r: NodeName)
    ensures r == ChangeAnalyzer <==> shouldUpdate
    ensures r == RepositoryAnalyzer <==> !shouldUpdate
  {
    if shouldUpdate then ChangeAnalyzer else RepositoryAnalyzer
  }

  /** The graph under construction (`StateGraph`): its nodes, entry point and edges. */
  class StateGraph {
    var nodes: seq<NodeName>
    var entry: Option<NodeName>
    var edges: seq<(NodeName, Target)>
    var branches: seq<(NodeName, Branch)>

    constructor ()
      ensures nodes == [] && entry == None && edges == [] && branches == []
    {
      nodes := [];
      entry := None;
      edges := [];
      branches := [];
    }

    method AddNode(n: NodeName)
      modifies this`nodes
      ensures nodes == old(nodes) + [n]
    {
      nodes := nodes + [n];
    }

    method SetEntryPoint(n: NodeName)
      modifies this`entry
      ensures entry == Some(n)
    {
      entry := Some(n);
    }

    method AddEdge(from: NodeName, to: Target)
      modifies this`edges
      ensures edges == old(edges) + [(from, to)]
    {
      edges := edges + [(from, to)];
    }

    method AddConditionalEdges(from: NodeName, b: Branch)
      modifies this`branches
      ensures branches == old(branches) + [(from, b)]
    {
      branches := branches + [(from, b)];
    }
  }

  /** The nodes in the order `_build_workflow` adds them. */
  const WorkflowNodes: seq<NodeName> := [
    DataLoader, ChangeAnalyzer, DocumentDecider, RepositoryAnalyzer, FileParser,
    FileSummarizer, DocumentGenerator, FullRepositoryDocumentGenerator, DocumentSaver]

  /** The unconditional edges of the graph, in the order they are added. */
  const WorkflowEdges: seq<(NodeName, Target)> := [
    (DataLoader, To(DocumentDecider)),
    (ChangeAnalyzer, To(DocumentGenerator)),
    (RepositoryAnalyzer, To(FileParser)),
    (FileParser, To(FileSummarizer)),
    (FileSummarizer, To(FullRepositoryDocumentGenerator)),
    (DocumentGenerator, To(DocumentSaver)),
    (FullRepositoryDocumentGenerator, To(DocumentSaver)),
    (DocumentSaver, End)]

  /** The one conditional edge: after the decider, by `route_after_decider`. */
  const WorkflowBranches: seq<(NodeName, Branch)> := [(DocumentDecider, Branch(ChangeAnalyzer, RepositoryAnalyzer))]

  /** `_build_workflow`. */
  method BuildWorkflow() returns (g: StateGraph)
    ensures fresh(g)
    ensures g.nodes == WorkflowNodes && g.entry == Some(DataLoader)
    ensures g.edges == WorkflowEdges && g.branches == WorkflowBranches
  {
    g := new StateGraph();
    AddWorkflowNodes(g);
    g.SetEntryPoint(DataLoader);
    g.AddEdge(DataLoader, To(DocumentDecider));
    g.AddConditionalEdges(DocumentDecider, Branch(ChangeAnalyzer, RepositoryAnalyzer));
    AddWorkflowEdges(g);
  }

  /** The `add_node` calls of `_build_workflow`. */
  method AddWorkflowNodes(g: StateGraph)
    requires g.nodes == []
    modifies g`nodes
    ensures g.nodes == WorkflowNodes
  {
    g.AddNode(DataLoader);
    g.AddNode(ChangeAnalyzer);
    g.AddNode(DocumentDecider);
    g.AddNode(RepositoryAnalyzer);
    g.AddNode(FileParser);
    g.AddNode(FileSummarizer);
    g.AddNode(DocumentGenerator);
    g.AddNode(FullRepositoryDocumentGenerator);
    g.AddNode(DocumentSaver);
  }

  /** The `add_edge` calls after the conditional branch. */
  method AddWorkflowEdges(g: StateGraph)
    requires g.edges == [(DataLoader, To(DocumentDecider))]
    modifies g`edges
    ensures g.edges == WorkflowEdges
  {
    g.AddEdge(ChangeAnalyzer, To(DocumentGenerator));
    g.AddEdge(RepositoryAnalyzer, To(FileParser));
    g.AddEdge(FileParser, To(FileSummarizer));
    g.AddEdge(FileSummarizer, To(FullRepositoryDocumentGenerator));
    g.AddEdge(DocumentGenerator, To(DocumentSaver));
    g.AddEdge(FullRepositoryDocumentGenerator, To(DocumentSaver));
    g.AddEdge(DocumentSaver, End);
  }

  /** A node's depth in the graph: every edge leads deeper. */
  function Rank(n: NodeName): nat {
    match n
    case DataLoader => 0
    case DocumentDecider => 1
    case ChangeAnalyzer => 2
    case RepositoryAnalyzer => 2
    case FileParser => 3
    case DocumentGenerator => 3
    case FileSummarizer => 4
    case FullRepositoryDocumentGenerator => 5
    case DocumentSaver => 6
  }

  /**
   * The node that runs after `n` when the decider left `should_update`;
   * nothing else of the state, the status included, is consulted.
   */
  function Next(n: NodeName, shouldUpdate: bool): (r: Target)
    ensures r.To? ==> Rank(r.node) > Rank(n)
    ensures r.End? <==> n == DocumentSaver
  {
    match n
    case DataLoader => To(DocumentDecider)
    case DocumentDecider => To(RouteAfterDecider(shouldUpdate))
    case ChangeAnalyzer => To(DocumentGenerator)
    case RepositoryAnalyzer => To(FileParser)
    case FileParser => To(FileSummarizer)
    case FileSummarizer => To(FullRepositoryDocumentGenerator)
    case DocumentGenerator => To(DocumentSaver)
    case FullRepositoryDocumentGenerator => To(DocumentSaver)
    case DocumentSaver => End
  }

  /**
   * `Next` is the compiled graph: every node is added, and it leaves either
   * by exactly one unconditional edge or, the decider alone, by the branch
   * on `should_update`.
   */
  lemma NextFollowsGraph(n: NodeName, shouldUpdate: bool)
    ensures n in WorkflowNodes
    ensures n != DocumentDecider ==>
      (n, Next(n, shouldUpdate)) in WorkflowEdges
      && forall e :: e in WorkflowEdges && e.0 == n ==> e.1 == Next(n, shouldUpdate)
    ensures n == DocumentDecider ==>
      (forall e :: e in WorkflowEdges ==> e.0 != n)
      && (n, Branch(ChangeAnalyzer, RepositoryAnalyzer)) in WorkflowBranches
      && Next(n, shouldUpdate) == To(if shouldUpdate then ChangeAnalyzer else RepositoryAnalyzer)
  {
  }

  /** The nodes a run executes from `n` on, in order. */
  function Walk(n: NodeName, shouldUpdate: bool): seq<NodeName>
    decreases 6 - Rank(n)
  {
    match Next(n, shouldUpdate)
    case End => [n]
    case To(m) => [n] + Walk(m, shouldUpdate)
  }

  /** A run of the compiled graph, from the entry point. */
  function Run(shouldUpdate: bool): seq<NodeName> {
    Walk(DataLoader, shouldUpdate)
  }

  /** From `n` on a run executes at most `7 - Rank(n)` nodes and always ends at the saver. */
  lemma {:induction false} WalkBounded(n: NodeName, shouldUpdate: bool)
    ensures 1 <= |Walk(n, shouldUpdate)| <= 7 - Rank(n)
    ensures Walk(n, shouldUpdate)[0] == n
    ensures Walk(n, shouldUpdate)[|Walk(n, shouldUpdate)| - 1] == DocumentSaver
    decreases 6 - Rank(n)
  {
    match Next(n, shouldUpdate)
    case End =>
    case To(m) =>
      WalkBounded(m, shouldUpdate);
  }

  /** Every run ends at the saver after at most seven node executions. */
  lemma RunTerminates(shouldUpdate: bool)
    ensures |Run(shouldUpdate)| <= 7 && Run(shouldUpdate)[|Run(shouldUpdate)| - 1] == DocumentSaver
  {
    WalkBounded(DataLoader, shouldUpdate);
  }

  /** The incremental path, taken when a document already exists. */
  lemma UpdateRun()
    ensures Run(true) == [DataLoader, DocumentDecider, ChangeAnalyzer, DocumentGenerator, DocumentSaver]
  {
    assert Walk(DocumentSaver, true) == [DocumentSaver];
    assert Walk(DocumentGenerator, true) == [DocumentGenerator, DocumentSaver];
    assert Walk(ChangeAnalyzer, true) == [ChangeAnalyzer, DocumentGenerator, DocumentSaver];
    assert Walk(DocumentDecider, true) == [DocumentDecider, ChangeAnalyzer, DocumentGenerator, DocumentSaver];
  }

  /** The whole-repository path, taken for a new document. */
  lemma CreateRun()
    ensures Run(false) == [DataLoader, DocumentDecider, RepositoryAnalyzer, FileParser, FileSummarizer,
                           FullRepositoryDocumentGenerator, DocumentSaver]
  {
    assert Walk(DocumentSaver, false) == [DocumentSaver];
    assert Walk(FullRepositoryDocumentGenerator, false) == [FullRepositoryDocumentGenerator, DocumentSaver];
    assert Walk(FileSummarizer, false) == [FileSummarizer, FullRepositoryDocumentGenerator, DocumentSaver];
    assert Walk(FileParser, false) == [FileParser, FileSummarizer, FullRepositoryDocumentGenerator, DocumentSaver];
    assert Walk(RepositoryAnalyzer, false)
      == [RepositoryAnalyzer, FileParser, FileSummarizer, FullRepositoryDocumentGenerator, DocumentSaver];
    assert Walk(DocumentDecider, false)
      == [DocumentDecider, RepositoryAnalyzer, FileParser, FileSummarizer, FullRepositoryDocumentGenerator, DocumentSaver];
  }

  /** The settings a constructed workflow runs with. */
  datatype WorkflowConfig = WorkflowConfig(useMock: bool, apiKey: Option<string>, llmAvailable: bool)

  const ApiKeyRequired: string := "OPENAI_API_KEY is required (or use use_mock=True)"

  /** Python truthiness of an optional string. */
  predicate Truthy(s: Option<string>) {
    s.Some? && s.value != []
  }

  /** `openai_api_key or os.getenv("OPENAI_API_KEY")`. */
  function KeyOrEnv(key: Option<string>, env: Option<string>): (r: Option<string>)
    ensures Truthy(r) <==> Truthy(key) || Truthy(env)
    ensures Truthy(key) ==> r == key
  {
    if Truthy(key) then key else env
  }

  /**
   * `DocumentWorkflow.__init__`: without the mock, a key (passed or from
   * the environment) is required and an LLM is created; with the mock
   * there is no LLM.
   */
  function NewWorkflow(key: Option<string>, env: Option<string>, useMock: bool): (r: Result<WorkflowConfig>)
    ensures r.Raised? <==> !useMock && !Truthy(key) && !Truthy(env)
    ensures r.Raised? ==> r.message == ApiKeyRequired
    ensures r.Ok? ==> r.value.useMock == useMock && r.value.llmAvailable == !useMock
    ensures r.Ok? && !useMock ==> Truthy(r.value.apiKey)
  {
    var apiKey := KeyOrEnv(key, env);
    if !useMock && !Truthy(apiKey) then Raised(ApiKeyRequired)
    else Ok(WorkflowConfig(useMock, apiKey, !useMock))
  }

  /** The keys of the final state that `process` reports. */
  datatype FinalState = FinalState(
    status: Option<string>,
    documentId: Option<int>,
    action: Option<string>,
    documentTitle: Option<string>,
    documentSummary: Option<string>,
    error: Option<string>)

  /** What `process` returns. */
  datatype ProcessResult =
    | Succeeded(documentId: Option<int>, action: Option<string>, title: Option<string>, summary: Option<string>)
    | Failed(error: string)

  const UnknownError: string := "Unknown error"

  /** The result of `process` for the state the compiled graph ends in. */
  function ProcessResultOf(final: FinalState): (r: ProcessResult)
    ensures r.Succeeded? <==> final.status == Some("completed")
    ensures r.Succeeded? ==> r == Succeeded(final.documentId, final.action, final.documentTitle, final.documentSummary)
    ensures r.Failed? ==> r.error == final.error.GetOr(UnknownError)
  {
    if final.status == Some("completed") then
      Succeeded(final.documentId, final.action, final.documentTitle, final.documentSummary)
    else Failed(final.error.GetOr(UnknownError))
  }

  /** A run that stopped on an error reports that error, and only a completed run reports success. */
  lemma ErrorRunFails(final: FinalState, message: string)
    requires final.status == Some("error") && final.error == Some(message)
    ensures ProcessResultOf(final) == Failed(message)
  {
  }
}
