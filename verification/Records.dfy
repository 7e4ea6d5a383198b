/** The records the store keeps and the documents that pass through it. Ids are opaque numbers;
    JSON payloads the model does not interpret are strings. */
module Records {
  import opened Common
  import opened Graph

  type ProjectId = nat
  type ConversationId = nat
  type NodeId = Vertex
  type EdgeId = nat
  type RunId = nat
  /** `call_1`, `call_2`, …, unique within a run. */
  type CallId = nat
  type Instant = nat

  // ---- The durable DAG ----

  datatype NodeType = TaskNode | ArtifactNode | ObservationNode | DecisionNode | ResultNode | ConversationNode

  datatype Payload = UserTurn(text: string) | LintFinding(rule: string, file: string, functionName: string) | Opaque(json: string)

  datatype Node = Node(project: ProjectId, nodeType: NodeType, payload: Payload, createdAt: Instant)

  datatype EdgeType = DependsOn | Produces | ObservedFrom | RelatedTo | Supersedes

  datatype Edge = Edge(id: EdgeId, project: ProjectId, from: NodeId, to: NodeId, edgeType: EdgeType)

  // ---- Runs ----

  datatype Status = Running | Completed | Failed

  datatype ErrorCode =
    | JevFailed | JevInvalidOutput | IrInvalid | ProviderFailed | ProviderTimeout | ResponseInvalid
    | EmissionRejected | Interrupted | Cancelled | Internal

  datatype Run = Run(project: ProjectId, conversation: ConversationId, status: Status, startedAt: Instant,
                     errorCode: Option<ErrorCode>)

  /** Why a node is in a run's active context. */
  datatype Source = Carried | Jev

  datatype Member = Member(node: NodeId, source: Source)

  // ---- Classification ----

  datatype Candidate = Candidate(node: NodeId, nodeType: NodeType, inContext: bool)

  datatype JevEdge = JevEdge(from: NodeId, to: NodeId, edgeType: EdgeType)

  datatype Request = Request(candidates: seq<Candidate>, edges: seq<JevEdge>, tools: seq<string>)

  datatype Entry = Entry(node: NodeId, active: bool)

  datatype ToolEntry = ToolEntry(name: string, active: bool)

  datatype Classification = Classification(entries: seq<Entry>, tools: seq<ToolEntry>)

  // ---- Inference ----

  datatype Relation = Relation(edgeType: EdgeType, to: NodeId)

  datatype ContextItem = ContextItem(node: NodeId, nodeType: NodeType, payload: Payload, relations: seq<Relation>)

  /** How an earlier turn of the conversation ended. */
  datatype TurnOutcome = TurnOutcome(run: RunId, status: Status, request: Option<string>, errorCode: Option<ErrorCode>,
                                     message: Option<string>, prose: Option<string>)

  datatype CallStatus = CallDenied | CallFailed | CallCompleted

  datatype ToolResult = ToolResult(call: CallId, name: string, arguments: string, status: CallStatus,
                                   output: Option<string>, reason: Option<string>)

  datatype RecalledTurn = RecalledTurn(run: RunId, text: string)

  datatype Finding = Finding(rule: string, file: string, functionName: string)

  datatype Review = Review(round: nat, maxRounds: nat, findings: seq<Finding>)

  datatype Ir = Ir(task: NodeId, message: string, context: seq<ContextItem>, recent: seq<TurnOutcome>, tools: seq<string>,
                   toolResults: seq<ToolResult>, recalled: seq<RecalledTurn>, review: Option<Review>)

  datatype Endpoint = Ref(name: string) | Existing(node: NodeId)

  datatype Emission =
    | EmitNode(ref: string, nodeType: NodeType, payload: Payload)
    | EmitEdge(from: Endpoint, to: Endpoint, edgeType: EdgeType)

  datatype ToolCall = ToolCall(name: string, arguments: string)

  datatype Response = Response(prose: string, emissions: seq<Emission>, toolCalls: seq<ToolCall>)

  // ---- Events ----

  datatype Decider = ByPolicy | ByUser | ByTimeout | ByLimit | ByUnavailable

  datatype EventData =
    | RunStarted
    | MessageRecorded(task: NodeId, text: string)
    | ContextCarried(fromRun: Option<RunId>, nodes: seq<NodeId>)
    | JevRequested(request: Request)
    | JevClassified(classification: Classification)
    | JevRejected(reason: string)
    | JevFallback(reason: string)
    | ContextExpanded
    | ContextAdded(added: NodeId)
    | ContextRemoved(removed: NodeId)
    | IrCompiled(ir: Ir)
    | InferenceStarted
    | InferenceDelta(text: string)
    | InferenceCompleted(output: string)
    | ToolRequested(call: CallId, name: string, arguments: string)
    | ToolDecided(call: CallId, allowed: bool, decider: Decider, why: Option<string>)
    | ToolCompleted(call: CallId, output: string, isError: bool)
    | ReviewCompleted(round: nat, findings: seq<Finding>, error: Option<string>)
    | ResponseValidated(response: Response)
    | ResponseRejected(reason: string)
    | DagNodeCreated(node: NodeId, nodeType: NodeType, ref: string)
    | DagEdgeCreated(edge: EdgeId, from: NodeId, to: NodeId, edgeType: EdgeType)
    | RunCompleted
    | RunFailed(errorCode: ErrorCode, message: string)

  /** One row of the event table. */
  datatype Event = Event(run: RunId, sequence: nat, data: EventData)

  // ---- Refusals ----

  datatype StoreError =
    | NotFound
    | RunInProgress
    | RunFinished
    | DuplicateContextMember(node: NodeId)
    | UnknownNode(node: NodeId)
    | SelfLoop(node: NodeId)
    | DuplicateEdge(from: NodeId, to: NodeId, edgeType: EdgeType)
    | Cycle(from: NodeId, to: NodeId, edgeType: EdgeType)
    /** A generated id was already taken (a primary-key conflict). */
    | IdTaken
}
