/** The store's tables as one value, and what each transaction of the runtime makes of them.

    Every operation either gives the tables after it or says why it is refused; a refused
    transaction leaves the tables as they were. */
module Database {
  import opened Common
  import opened Graph
  import opened Order
  import opened Records

  datatype Db = Db(
    projects: set<ProjectId>,
    conversations: map<ConversationId, ProjectId>,
    nodes: map<NodeId, Node>,
    edges: seq<Edge>,
    runs: map<RunId, Run>,
    events: seq<Event>,
    context: map<RunId, map<NodeId, Source>>)

  const EMPTY: Db := Db({}, map[], map[], [], map[], [], map[])

  // ---- Queries ----

  predicate NodeInProject(nodes: map<NodeId, Node>, project: ProjectId, node: NodeId) {
    node in nodes && nodes[node].project == project
  }

  function ProjectNodes(nodes: map<NodeId, Node>, project: ProjectId): set<NodeId> {
    set n | n in nodes && nodes[n].project == project
  }

  function NodeKey(nodes: map<NodeId, Node>, n: NodeId): Key
    requires n in nodes
  {
    Key(nodes[n].createdAt, n)
  }

  function Ids(keys: seq<Key>): (ids: seq<nat>)
    ensures |ids| == |keys| && forall i | 0 <= i < |keys| :: ids[i] == keys[i].id
  {
    seq(|keys|, i requires 0 <= i < |keys| => keys[i].id)
  }

  /** `members` by creation order, the order of active context in IR. */
  function Ranked(nodes: map<NodeId, Node>, members: set<NodeId>): seq<NodeId>
    requires members <= nodes.Keys
  {
    Ids(Sorted(set n | n in members :: NodeKey(nodes, n)))
  }

  function ArrowsOf(edges: seq<Edge>): set<Arrow> {
    set e | e in edges :: Arrow(e.from, e.to)
  }

  /** The run's history, in the order it was appended. */
  function Log(events: seq<Event>, run: RunId): seq<Event> {
    if events == [] then []
    else
      var log := Log(events[..|events| - 1], run);
      var last := events[|events| - 1];
      if last.run == run then log + [last] else log
  }

  function MaxSequence(log: seq<Event>): nat {
    if log == [] then 0
    else
      var rest := MaxSequence(log[..|log| - 1]);
      var last := log[|log| - 1].sequence;
      if last > rest then last else rest
  }

  predicate IsRunning(db: Db, run: RunId) {
    run in db.runs && db.runs[run].status == Running
  }

  predicate HasRunning(db: Db, project: ProjectId) {
    exists r :: r in db.runs && db.runs[r].project == project && db.runs[r].status == Running
  }

  function RunKey(runs: map<RunId, Run>, r: RunId): Key
    requires r in runs
  {
    Key(runs[r].startedAt, r)
  }

  function EarlierInConversation(runs: map<RunId, Run>, run: RunId): set<Key>
    requires run in runs
  {
    set r | r in runs && runs[r].conversation == runs[run].conversation && Less(RunKey(runs, r), RunKey(runs, run))
      :: RunKey(runs, r)
  }

  /** The latest of the conversation's runs that started before this one. */
  function PreviousRun(runs: map<RunId, Run>, run: RunId): Option<RunId>
    requires run in runs
  {
    var earlier := Sorted(EarlierInConversation(runs, run));
    if earlier == [] then None else Some(earlier[|earlier| - 1].id)
  }

  // ---- Rows ----

  function RequireRunning(db: Db, run: RunId): Result<Run, StoreError> {
    if run !in db.runs then Err(NotFound)
    else if db.runs[run].status == Running then Ok(db.runs[run])
    else Err(RunFinished)
  }

  function AppendEvent(db: Db, run: RunId, data: EventData): Result<Db, StoreError> {
    var running := RequireRunning(db, run);
    if running.Err? then Err(running.error)
    else Ok(db.(events := db.events + [Event(run, MaxSequence(Log(db.events, run)) + 1, data)]))
  }

  function AppendEvents(db: Db, run: RunId, data: seq<EventData>): Result<Db, StoreError>
    decreases |data|
  {
    if data == [] then Ok(db)
    else
      var first := AppendEvent(db, run, data[0]);
      if first.Err? then first else AppendEvents(first.value, run, data[1..])
  }

  function InsertNode(db: Db, project: ProjectId, id: NodeId, nodeType: NodeType, payload: Payload, now: Instant)
    : Result<Db, StoreError>
  {
    if project !in db.projects then Err(NotFound)
    else if id in db.nodes then Err(IdTaken)
    else Ok(db.(nodes := db.nodes[id := Node(project, nodeType, payload, now)]))
  }

  /** Why `from → to` may not be inserted, if it may not. */
  ghost function EdgeRefusal(db: Db, project: ProjectId, from: NodeId, to: NodeId, edgeType: EdgeType): Option<StoreError> {
    if !NodeInProject(db.nodes, project, from) then Some(UnknownNode(from))
    else if !NodeInProject(db.nodes, project, to) then Some(UnknownNode(to))
    else if from == to then Some(SelfLoop(from))
    else if exists e :: e in db.edges && e.from == from && e.to == to && e.edgeType == edgeType then
      Some(DuplicateEdge(from, to, edgeType))
    else if Reach(ArrowsOf(db.edges), to, from) then Some(Cycle(from, to, edgeType))
    else None
  }

  ghost function InsertEdge(db: Db, project: ProjectId, id: EdgeId, from: NodeId, to: NodeId, edgeType: EdgeType)
    : Result<Db, StoreError>
  {
    if project !in db.projects then Err(NotFound)
    else
      var refusal := EdgeRefusal(db, project, from, to, edgeType);
      if refusal.Some? then Err(refusal.value)
      else if exists e :: e in db.edges && e.id == id then Err(IdTaken)
      else Ok(db.(edges := db.edges + [Edge(id, project, from, to, edgeType)]))
  }

  // ---- Active context ----

  function MemberRefusal(db: Db, project: ProjectId, members: seq<Member>, seen: set<NodeId>): Option<StoreError>
    decreases |members|
  {
    if members == [] then None
    else if members[0].node in seen then Some(DuplicateContextMember(members[0].node))
    else if !NodeInProject(db.nodes, project, members[0].node) then Some(UnknownNode(members[0].node))
    else MemberRefusal(db, project, members[1..], seen + {members[0].node})
  }

  function MembersOf(members: seq<Member>): map<NodeId, Source> {
    if members == [] then map[]
    else MembersOf(members[..|members| - 1])[members[|members| - 1].node := members[|members| - 1].source]
  }

  function ReplaceContext(db: Db, run: RunId, members: seq<Member>): Result<Db, StoreError> {
    var running := RequireRunning(db, run);
    if running.Err? then Err(running.error)
    else
      var refusal := MemberRefusal(db, running.value.project, members, {});
      if refusal.Some? then Err(refusal.value)
      else Ok(db.(context := db.context[run := MembersOf(members)]))
  }

  function ContextOf(db: Db, run: RunId): map<NodeId, Source> {
    if run in db.context then db.context[run] else map[]
  }

  /** A membership map as rows, by node id. */
  function Listing(m: map<NodeId, Source>): (rows: seq<Member>)
    ensures |rows| == |m.Keys|
    ensures forall i | 0 <= i < |rows| :: rows[i].node in m && rows[i].source == m[rows[i].node]
    ensures forall i, j | 0 <= i < j < |rows| :: rows[i].node < rows[j].node
  {
    IdKeysSize(m.Keys);
    var keys := Sorted(IdKeys(m.Keys));
    assert forall i | 0 <= i < |keys| :: keys[i] in keys && keys[i] in IdKeys(m.Keys);
    seq(|keys|, i requires 0 <= i < |keys| => Member(keys[i].id, m[keys[i].id]))
  }

  function IdKeys(ids: set<nat>): set<Key> { set n | n in ids :: Key(0, n) }

  lemma {:induction false} IdKeysSize(ids: set<nat>)
    ensures |IdKeys(ids)| == |ids|
    decreases |ids|
  {
    if ids != {} {
      var n :| n in ids;
      IdKeysSize(ids - {n});
      assert IdKeys(ids) == IdKeys(ids - {n}) + {Key(0, n)};
    }
  }

  /** Seeds a new run's context with the previous run's members. */
  function CarryContext(db: Db, run: RunId): Result<Db, StoreError> {
    if run !in db.runs then Err(NotFound)
    else
      var previous := PreviousRun(db.runs, run);
      var carried := if previous.None? then map[] else map n | n in ContextOf(db, previous.value) :: Carried;
      var replaced := ReplaceContext(db, run, Listing(carried));
      if replaced.Err? then replaced
      else if !(carried.Keys <= db.nodes.Keys) then Err(NotFound)
      else AppendEvent(replaced.value, run, ContextCarried(previous, Ranked(db.nodes, carried.Keys)))
  }

  /** Everything Jev may classify: the project's nodes except the task, oldest first, and the edges
      between them. */
  function ClassificationRequest(db: Db, run: RunId, task: NodeId, tools: seq<string>): Request
    requires run in db.runs
  {
    var ids := Ranked(db.nodes, ProjectNodes(db.nodes, db.runs[run].project) - {task});
    RankedMembers(db.nodes, ProjectNodes(db.nodes, db.runs[run].project) - {task});
    Request(
      seq(|ids|, i requires 0 <= i < |ids| => Candidate(ids[i], db.nodes[ids[i]].nodeType, ids[i] in ContextOf(db, run))),
      CandidateEdges(db.edges, db.runs[run].project, ProjectNodes(db.nodes, db.runs[run].project) - {task}),
      tools)
  }

  function CandidateEdges(edges: seq<Edge>, project: ProjectId, candidates: set<NodeId>): seq<JevEdge> {
    if edges == [] then []
    else
      var rest := CandidateEdges(edges[..|edges| - 1], project, candidates);
      var e := edges[|edges| - 1];
      if e.project == project && e.from in candidates && e.to in candidates
      then rest + [JevEdge(e.from, e.to, e.edgeType)] else rest
  }

  lemma RankedMembers(nodes: map<NodeId, Node>, members: set<NodeId>)
    requires members <= nodes.Keys
    ensures forall n :: n in Ranked(nodes, members) <==> n in members
    ensures forall i, j | 0 <= i < j < |Ranked(nodes, members)| :: Ranked(nodes, members)[i] != Ranked(nodes, members)[j]
  {
    var keys := set n | n in members :: NodeKey(nodes, n);
    var sorted := Sorted(keys);
    forall n ensures n in Ranked(nodes, members) <==> n in members {
      if n in members {
        assert NodeKey(nodes, n) in sorted;
        var i :| 0 <= i < |sorted| && sorted[i] == NodeKey(nodes, n);
        assert Ids(sorted)[i] == n;
      }
      if n in Ids(sorted) {
        var i :| 0 <= i < |sorted| && Ids(sorted)[i] == n;
        assert sorted[i] in keys;
      }
    }
    forall i, j | 0 <= i < j < |sorted| ensures Ids(sorted)[i] != Ids(sorted)[j] {
      assert sorted[i] in keys && sorted[j] in keys && Less(sorted[i], sorted[j]);
    }
  }

  function Membership(before: map<NodeId, Source>, entries: seq<Entry>): map<NodeId, Source> {
    if entries == [] then before
    else
      var m := Membership(before, entries[..|entries| - 1]);
      var e := entries[|entries| - 1];
      if e.active then m[e.node := Jev] else m - {e.node}
  }

  function Added(nodes: seq<NodeId>): seq<EventData> { seq(|nodes|, i requires 0 <= i < |nodes| => ContextAdded(nodes[i])) }

  function Removed(nodes: seq<NodeId>): seq<EventData> {
    seq(|nodes|, i requires 0 <= i < |nodes| => ContextRemoved(nodes[i]))
  }

  /** Replaces a run's context and announces the change, `head` first. */
  function ChangeContext(db: Db, run: RunId, after: map<NodeId, Source>, head: EventData): Result<Db, StoreError> {
    var before := ContextOf(db, run);
    var replaced := ReplaceContext(db, run, Listing(after));
    if replaced.Err? then replaced
    else if !(before.Keys <= db.nodes.Keys && after.Keys <= db.nodes.Keys) then Err(NotFound)
    else AppendEvents(replaced.value, run, [head] + Added(Ranked(db.nodes, after.Keys - before.Keys))
                      + Removed(Ranked(db.nodes, before.Keys - after.Keys)))
  }

  function ApplyClassification(db: Db, run: RunId, c: Classification): Result<Db, StoreError> {
    ChangeContext(db, run, Membership(ContextOf(db, run), c.entries), JevClassified(c))
  }

  /** The run's context grows to all of its project but its own task. */
  function ExpandContext(db: Db, run: RunId, task: NodeId): Result<Db, StoreError> {
    if run !in db.runs then Err(NotFound)
    else
      var before := ContextOf(db, run);
      var more := map n | n in ProjectNodes(db.nodes, db.runs[run].project) && n != task && n !in before :: Jev;
      ChangeContext(db, run, before + more, ContextExpanded)
  }

  // ---- Runs ----

  function Finish(db: Db, run: RunId, status: Status, code: Option<ErrorCode>): Db
    requires run in db.runs
  {
    db.(runs := db.runs[run := db.runs[run].(status := status, errorCode := code)])
  }

  function CompleteRun(db: Db, run: RunId): Result<Db, StoreError> {
    var appended := AppendEvent(db, run, RunCompleted);
    if appended.Err? then appended else Ok(Finish(appended.value, run, Completed, None))
  }

  function FailRun(db: Db, run: RunId, code: ErrorCode, message: string): Result<Db, StoreError> {
    var appended := AppendEvent(db, run, RunFailed(code, message));
    if appended.Err? then appended else Ok(Finish(appended.value, run, Failed, Some(code)))
  }

  /** What ends a failed run: the evidence, if any, and the failure. */
  function FailWith(db: Db, run: RunId, evidence: Option<EventData>, code: ErrorCode, message: string): Result<Db, StoreError> {
    if evidence.None? then FailRun(db, run, code, message)
    else
      var appended := AppendEvent(db, run, evidence.value);
      if appended.Err? then appended else FailRun(appended.value, run, code, message)
  }

  function CreateRun(db: Db, conversation: ConversationId, run: RunId, now: Instant): Result<Db, StoreError> {
    if conversation !in db.conversations then Err(NotFound)
    else
      var project := db.conversations[conversation];
      if HasRunning(db, project) then Err(RunInProgress)
      else if run in db.runs then Err(IdTaken)
      else
        AppendEvent(db.(runs := db.runs[run := Run(project, conversation, Running, now, None)]), run, RunStarted)
  }

  /** Starts a run: its row, its task node, and the context it carries over. */
  function StartRun(db: Db, conversation: ConversationId, run: RunId, task: NodeId, text: string, now: Instant)
    : Result<Db, StoreError>
  {
    var created := CreateRun(db, conversation, run, now);
    if created.Err? then created
    else
      var noded := InsertNode(created.value, db.conversations[conversation], task, ConversationNode, UserTurn(text), now);
      if noded.Err? then noded
      else
        var recorded := AppendEvent(noded.value, run, MessageRecorded(task, text));
        if recorded.Err? then recorded else CarryContext(recorded.value, run)
  }

  // ---- Projects and conversations ----

  function AddConversationTo(db: Db, project: ProjectId, conversation: ConversationId): Result<Db, StoreError> {
    if project !in db.projects then Err(NotFound)
    else if conversation in db.conversations then Err(IdTaken)
    else Ok(db.(conversations := db.conversations[conversation := project]))
  }

  // ---- Responses ----

  function RefsOf(emissions: seq<Emission>): set<string> {
    set e | e in emissions && e.EmitNode? :: e.ref
  }

  predicate Resolvable(refs: set<string>, endpoint: Endpoint) {
    endpoint.Ref? ==> endpoint.name in refs
  }

  function Resolve(created: map<string, NodeId>, endpoint: Endpoint): NodeId
    requires Resolvable(created.Keys, endpoint)
  {
    match endpoint case Ref(name) => created[name] case Existing(node) => node
  }

  predicate EndpointsResolve(refs: set<string>, emissions: seq<Emission>) {
    forall e | e in emissions && e.EmitEdge? :: Resolvable(refs, e.from) && Resolvable(refs, e.to)
  }

  /** Creates the emitted nodes in order; the k-th emission's node gets `ids[k]`. */
  function CreateNodes(db: Db, run: RunId, emissions: seq<Emission>, ids: seq<nat>, now: Instant)
    : (r: Result<(Db, map<string, NodeId>), StoreError>)
    requires run in db.runs && |ids| == |emissions|
    ensures r.Ok? ==> run in r.value.0.runs && r.value.1.Keys == RefsOf(emissions)
  {
    if emissions == [] then Ok((db, map[]))
    else
      var k := |emissions| - 1;
      assert emissions == emissions[..k] + [emissions[k]];
      var rest := CreateNodes(db, run, emissions[..k], ids[..k], now);
      if rest.Err? then rest
      else match emissions[k]
        case EmitEdge(_, _, _) => rest
        case EmitNode(ref, nodeType, payload) =>
          var created := AnnounceNode(rest.value.0, run, ids[k], nodeType, payload, ref, now);
          if created.Err? then Err(created.error)
          else Ok((created.value, rest.value.1[ref := ids[k]]))
  }

  /** A node of the run's project and the event that announces it. */
  function AnnounceNode(db: Db, run: RunId, id: NodeId, nodeType: NodeType, payload: Payload, ref: string, now: Instant)
    : (r: Result<Db, StoreError>)
    requires run in db.runs
    ensures r.Ok? ==> r.value.runs == db.runs
  {
    var inserted := InsertNode(db, db.runs[run].project, id, nodeType, payload, now);
    if inserted.Err? then inserted else AppendEvent(inserted.value, run, DagNodeCreated(id, nodeType, ref))
  }

  ghost function AnnounceEdge(db: Db, run: RunId, id: EdgeId, from: NodeId, to: NodeId, edgeType: EdgeType)
    : (r: Result<Db, StoreError>)
    requires run in db.runs
    ensures r.Ok? ==> r.value.runs == db.runs
  {
    var inserted := InsertEdge(db, db.runs[run].project, id, from, to, edgeType);
    if inserted.Err? then inserted else AppendEvent(inserted.value, run, DagEdgeCreated(id, from, to, edgeType))
  }

  /** Creates the emitted edges in order, their endpoints resolved by `created`. */
  ghost function CreateEdges(db: Db, run: RunId, emissions: seq<Emission>, created: map<string, NodeId>, ids: seq<nat>)
    : (r: Result<Db, StoreError>)
    requires run in db.runs && |ids| == |emissions| && EndpointsResolve(created.Keys, emissions)
    ensures r.Ok? ==> r.value.runs == db.runs
  {
    if emissions == [] then Ok(db)
    else
      var k := |emissions| - 1;
      var rest := CreateEdges(db, run, emissions[..k], created, ids[..k]);
      if rest.Err? || emissions[k].EmitNode? then rest
      else
        var e := emissions[k];
        assert e in emissions;
        AnnounceEdge(rest.value, run, ids[k], Resolve(created, e.from), Resolve(created, e.to), e.edgeType)
  }

  /** Records a validated response and creates its nodes and then its edges. */
  ghost function ApplyResponse(db: Db, run: RunId, response: Response, ids: seq<nat>, now: Instant): Result<Db, StoreError>
    requires |ids| == |response.emissions| && EndpointsResolve(RefsOf(response.emissions), response.emissions)
  {
    var recorded := AppendEvent(db, run, ResponseValidated(response));
    if recorded.Err? then recorded
    else
      var nodes := CreateNodes(recorded.value, run, response.emissions, ids, now);
      if nodes.Err? then Err(nodes.error)
      else CreateEdges(nodes.value.0, run, response.emissions, nodes.value.1, ids)
  }

  // ---- Findings a run ends with ----

  predicate AlreadyFound(db: Db, project: ProjectId, finding: Finding) {
    exists n :: n in db.nodes && db.nodes[n].project == project && db.nodes[n].nodeType == ObservationNode
                && db.nodes[n].payload == LintFinding(finding.rule, finding.file, finding.functionName)
  }

  /** Records each finding the project did not have before as an observation. The nodes that exist
      are read once, so a finding repeated within the batch is recorded each time. */
  function RecordFindings(db: Db, run: RunId, findings: seq<Finding>, ids: seq<nat>, refs: seq<string>, now: Instant)
    : (r: Result<Db, StoreError>)
    requires run in db.runs && |ids| == |findings| == |refs|
    ensures r.Ok? ==> r.value.runs == db.runs
  {
    if findings == [] then Ok(db)
    else
      var k := |findings| - 1;
      var rest := RecordFindings(db, run, findings[..k], ids[..k], refs[..k], now);
      if rest.Err? || AlreadyFound(db, db.runs[run].project, findings[k]) then rest
      else
        AnnounceNode(rest.value, run, ids[k], ObservationNode,
                     LintFinding(findings[k].rule, findings[k].file, findings[k].functionName), refs[k], now)
  }
}
