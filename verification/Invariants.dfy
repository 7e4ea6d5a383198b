/** What every commit of the store keeps: an acyclic graph inside each project, one running run per
    project, gap-free histories, and tables that the events alone rebuild. */
module Invariants {
  import opened Common
  import opened Graph
  import opened Order
  import opened Records
  import opened Database

  // ---- Histories ----

  predicate Numbered(log: seq<Event>) {
    forall i | 0 <= i < |log| :: log[i].sequence == i + 1
  }

  predicate IsTerminal(d: EventData) { d.RunCompleted? || d.RunFailed? }

  predicate IsOpening(d: EventData) { d.RunStarted? || d.MessageRecorded? || d.ContextCarried? }

  /** A history opens with the run's start, its task and the context it carries, and nowhere else. */
  predicate Opened(log: seq<Event>) {
    |log| >= 3 && log[0].data.RunStarted? && log[1].data.MessageRecorded? && log[2].data.ContextCarried?
    && forall i | 3 <= i < |log| :: !IsOpening(log[i].data)
  }

  /** A terminal event is there exactly when the run has finished, and only as the last event. */
  predicate Closed(log: seq<Event>, run: Run) {
    (forall i | 0 <= i < |log| - 1 :: !IsTerminal(log[i].data))
    && log != []
    && (match run.status
        case Running => !IsTerminal(log[|log| - 1].data)
        case Completed => log[|log| - 1].data.RunCompleted? && run.errorCode.None?
        case Failed => log[|log| - 1].data.RunFailed? && run.errorCode == Some(log[|log| - 1].data.errorCode))
  }

  function TaskOf(log: seq<Event>): NodeId
    requires Opened(log)
  {
    log[1].data.task
  }

  // ---- Replaying events ----

  function NodeEvent(m: map<NodeId, (RunId, NodeType)>, e: Event): map<NodeId, (RunId, NodeType)> {
    if e.data.MessageRecorded? then m[e.data.task := (e.run, ConversationNode)]
    else if e.data.DagNodeCreated? then m[e.data.node := (e.run, e.data.nodeType)]
    else m
  }

  function ReplayNodes(events: seq<Event>): map<NodeId, (RunId, NodeType)> {
    if events == [] then map[] else NodeEvent(ReplayNodes(events[..|events| - 1]), events[|events| - 1])
  }

  function EdgeEvent(edges: seq<Edge>, e: Event, runs: map<RunId, Run>): seq<Edge> {
    if e.data.DagEdgeCreated? && e.run in runs
    then edges + [Edge(e.data.edge, runs[e.run].project, e.data.from, e.data.to, e.data.edgeType)]
    else edges
  }

  function ReplayEdges(events: seq<Event>, runs: map<RunId, Run>): seq<Edge> {
    if events == [] then [] else EdgeEvent(ReplayEdges(events[..|events| - 1], runs), events[|events| - 1], runs)
  }

  function ContextEvent(s: set<NodeId>, d: EventData): set<NodeId> {
    if d.ContextCarried? then set n | n in d.nodes
    else if d.ContextAdded? then s + {d.added}
    else if d.ContextRemoved? then s - {d.removed}
    else s
  }

  function ReplayContext(log: seq<Event>): set<NodeId> {
    if log == [] then {} else ContextEvent(ReplayContext(log[..|log| - 1]), log[|log| - 1].data)
  }

  ghost predicate NodesReplayed(nodes: map<NodeId, Node>, events: seq<Event>, runs: map<RunId, Run>) {
    var m := ReplayNodes(events);
    m.Keys == nodes.Keys
    && forall n | n in m :: m[n].0 in runs && nodes[n].project == runs[m[n].0].project && nodes[n].nodeType == m[n].1
  }

  // ---- The invariant ----

  predicate EventsOfRuns(events: seq<Event>, runs: map<RunId, Run>) { forall e | e in events :: e.run in runs }

  predicate ProjectsExist(projects: set<ProjectId>, conversations: map<ConversationId, ProjectId>, nodes: map<NodeId, Node>) {
    (forall c | c in conversations :: conversations[c] in projects) && (forall n | n in nodes :: nodes[n].project in projects)
  }

  predicate ConversationsExist(conversations: map<ConversationId, ProjectId>, runs: map<RunId, Run>) {
    forall r | r in runs :: runs[r].conversation in conversations && conversations[runs[r].conversation] == runs[r].project
  }

  predicate Domains(db: Db) {
    db.context.Keys == db.runs.Keys && EventsOfRuns(db.events, db.runs)
    && ProjectsExist(db.projects, db.conversations, db.nodes) && ConversationsExist(db.conversations, db.runs)
  }

  predicate SameTriple(a: Edge, b: Edge) { a.from == b.from && a.to == b.to && a.edgeType == b.edgeType }

  predicate EdgesInProjects(nodes: map<NodeId, Node>, edges: seq<Edge>) {
    forall e | e in edges :: NodeInProject(nodes, e.project, e.from) && NodeInProject(nodes, e.project, e.to)
  }

  predicate DistinctEdges(edges: seq<Edge>) {
    forall i, j | 0 <= i < j < |edges| :: edges[i].id != edges[j].id && !SameTriple(edges[i], edges[j])
  }

  predicate OneRunning(runs: map<RunId, Run>) {
    forall r, s | r in runs && s in runs && runs[r].status == Running && runs[s].status == Running
                  && runs[r].project == runs[s].project :: r == s
  }

  predicate RequestsWithin(log: seq<Event>, candidates: set<NodeId>) {
    forall i, c | 0 <= i < |log| && log[i].data.JevRequested? && c in log[i].data.request.candidates :: c.node in candidates
  }

  predicate IrsWithin(log: seq<Event>, others: set<NodeId>) {
    forall i, c | 0 <= i < |log| && log[i].data.IrCompiled? && c in log[i].data.ir.context :: c.node in others
  }

  predicate HistoryOk(log: seq<Event>, run: Run) { Numbered(log) && Opened(log) && Closed(log, run) }

  /** A run's context is what its events say, lies in its project, and never holds its own task. */
  predicate ContextOk(members: set<NodeId>, log: seq<Event>, nodes: set<NodeId>)
    requires Opened(log)
  {
    TaskOf(log) in nodes && members == ReplayContext(log) && members <= nodes - {TaskOf(log)}
    && RequestsWithin(log, nodes - {TaskOf(log)}) && IrsWithin(log, nodes - {TaskOf(log)})
  }

  predicate RunOk(db: Db, r: RunId)
    requires r in db.runs && r in db.context
  {
    HistoryOk(Log(db.events, r), db.runs[r])
    && ContextOk(db.context[r].Keys, Log(db.events, r), ProjectNodes(db.nodes, db.runs[r].project))
  }

  ghost predicate GraphOk(nodes: map<NodeId, Node>, edges: seq<Edge>) {
    EdgesInProjects(nodes, edges) && DistinctEdges(edges) && Acyclic(ArrowsOf(edges))
  }

  ghost predicate Replayed(db: Db) {
    NodesReplayed(db.nodes, db.events, db.runs) && db.edges == ReplayEdges(db.events, db.runs)
  }

  predicate RunsOk(db: Db)
    requires Domains(db)
  {
    OneRunning(db.runs) && forall r {:trigger RunOk(db, r)} | r in db.runs :: RunOk(db, r)
  }

  ghost predicate Inv(db: Db) {
    Domains(db) && GraphOk(db.nodes, db.edges) && Replayed(db) && RunsOk(db)
  }

  // ---- Histories grow at the end ----

  lemma LogAppend(events: seq<Event>, e: Event, r: RunId)
    ensures Log(events + [e], r) == if e.run == r then Log(events, r) + [e] else Log(events, r)
  {
    assert (events + [e])[..|events|] == events;
  }

  lemma {:induction false} LogWithin(events: seq<Event>, r: RunId)
    ensures forall e :: e in Log(events, r) <==> e in events && e.run == r
  {
    if events != [] {
      LogWithin(events[..|events| - 1], r);
      assert events == events[..|events| - 1] + [events[|events| - 1]];
    }
  }

  lemma {:induction false} MaxOfNumbered(log: seq<Event>)
    requires Numbered(log)
    ensures MaxSequence(log) == |log|
  {
    if log != [] {
      MaxOfNumbered(log[..|log| - 1]);
    }
  }

  /** The row `AppendEvent` adds to a numbered history. */
  function NextRow(db: Db, run: RunId, data: EventData): Event {
    Event(run, |Log(db.events, run)| + 1, data)
  }

  lemma AppendsNextRow(db: Db, run: RunId, data: EventData)
    requires IsRunning(db, run) && Numbered(Log(db.events, run))
    ensures AppendEvent(db, run, data) == Ok(db.(events := db.events + [NextRow(db, run, data)]))
  {
    MaxOfNumbered(Log(db.events, run));
  }

  lemma ReplayAppend(events: seq<Event>, e: Event, runs: map<RunId, Run>)
    ensures ReplayNodes(events + [e]) == NodeEvent(ReplayNodes(events), e)
    ensures ReplayEdges(events + [e], runs) == EdgeEvent(ReplayEdges(events, runs), e, runs)
    ensures ReplayContext(events + [e]) == ContextEvent(ReplayContext(events), e.data)
  {
    assert (events + [e])[..|events|] == events;
  }

  lemma {:induction false} ReplayEdgesSameProjects(events: seq<Event>, a: map<RunId, Run>, b: map<RunId, Run>)
    requires forall e | e in events :: e.run in a && e.run in b && a[e.run].project == b[e.run].project
    ensures ReplayEdges(events, a) == ReplayEdges(events, b)
  {
    if events != [] {
      var init := events[..|events| - 1];
      assert forall e | e in init :: e in events;
      assert events[|events| - 1] in events;
      ReplayEdgesSameProjects(init, a, b);
    }
  }

  // ---- One history, one event longer ----

  lemma HistoryAppend(log: seq<Event>, run: Run, e: Event)
    requires HistoryOk(log, run) && run.status == Running
    requires e.sequence == |log| + 1 && !IsOpening(e.data) && !IsTerminal(e.data)
    ensures HistoryOk(log + [e], run) && TaskOf(log + [e]) == TaskOf(log)
  {
  }

  lemma HistoryEnds(log: seq<Event>, run: Run, e: Event, ended: Run)
    requires HistoryOk(log, run) && run.status == Running && e.sequence == |log| + 1
    requires (e.data.RunCompleted? && ended.status == Completed && ended.errorCode.None?)
          || (e.data.RunFailed? && ended.status == Failed && ended.errorCode == Some(e.data.errorCode))
    ensures HistoryOk(log + [e], ended) && TaskOf(log + [e]) == TaskOf(log)
  {
  }

  lemma ContextAppend(members: set<NodeId>, log: seq<Event>, nodes: set<NodeId>, e: Event)
    requires Opened(log) && !IsOpening(e.data) && ContextOk(members, log, nodes)
    requires ContextEvent(members, e.data) <= nodes - {TaskOf(log)}
    requires e.data.JevRequested? ==> forall c | c in e.data.request.candidates :: c.node in nodes - {TaskOf(log)}
    requires e.data.IrCompiled? ==> forall c | c in e.data.ir.context :: c.node in nodes - {TaskOf(log)}
    ensures Opened(log + [e]) && ContextOk(ContextEvent(members, e.data), log + [e], nodes)
  {
    ReplayAppend(log, e, map[]);
  }

  lemma ContextMoreNodes(members: set<NodeId>, log: seq<Event>, nodes: set<NodeId>, more: set<NodeId>)
    requires Opened(log) && ContextOk(members, log, nodes) && nodes <= more
    ensures ContextOk(members, log, more)
  {
  }

  // ---- Runs a step does not touch ----

  predicate NodesGrow(nodes: map<NodeId, Node>, more: map<NodeId, Node>) {
    forall n | n in nodes :: n in more && more[n] == nodes[n]
  }

  lemma MoreProjectNodes(nodes: map<NodeId, Node>, more: map<NodeId, Node>, project: ProjectId)
    requires NodesGrow(nodes, more)
    ensures ProjectNodes(nodes, project) <= ProjectNodes(more, project)
  {
  }

  /** Nothing about run `r` differs. */
  predicate SameRun(db: Db, db': Db, r: RunId) {
    r in db.runs && r in db.context && r in db'.runs && r in db'.context
    && Log(db'.events, r) == Log(db.events, r) && db'.runs[r] == db.runs[r] && db'.context[r] == db.context[r]
  }

  lemma RunOkKept(db: Db, db': Db, r: RunId)
    requires SameRun(db, db', r) && RunOk(db, r) && NodesGrow(db.nodes, db'.nodes)
    ensures RunOk(db', r)
  {
    MoreProjectNodes(db.nodes, db'.nodes, db.runs[r].project);
    ContextMoreNodes(db.context[r].Keys, Log(db.events, r), ProjectNodes(db.nodes, db.runs[r].project),
                     ProjectNodes(db'.nodes, db.runs[r].project));
  }

  // ---- One event of a running run ----

  function WithEvent(db: Db, run: RunId, d: EventData): Db { db.(events := db.events + [NextRow(db, run, d)]) }

  /** What a run's history and a set of members say about each other. */
  predicate RunHolds(db: Db, r: RunId, members: set<NodeId>)
    requires r in db.runs
  {
    HistoryOk(Log(db.events, r), db.runs[r])
    && ContextOk(members, Log(db.events, r), ProjectNodes(db.nodes, db.runs[r].project))
  }

  function Others(db: Db, r: RunId): set<NodeId>
    requires r in db.runs && Opened(Log(db.events, r))
  {
    ProjectNodes(db.nodes, db.runs[r].project) - {TaskOf(Log(db.events, r))}
  }

  /** Events a transaction may append between a run's opening and its end. */
  predicate Mid(d: EventData, others: set<NodeId>) {
    !IsOpening(d) && !IsTerminal(d) && (d.ContextAdded? ==> d.added in others)
    && (d.JevRequested? ==> forall c | c in d.request.candidates :: c.node in others)
    && (d.IrCompiled? ==> forall c | c in d.ir.context :: c.node in others)
  }

  lemma EventKeepsRun(db: Db, run: RunId, members: set<NodeId>, d: EventData)
    requires IsRunning(db, run) && RunHolds(db, run, members) && Mid(d, Others(db, run))
    ensures RunHolds(WithEvent(db, run, d), run, ContextEvent(members, d))
    ensures TaskOf(Log(WithEvent(db, run, d).events, run)) == TaskOf(Log(db.events, run))
  {
    var row := NextRow(db, run, d);
    LogAppend(db.events, row, run);
    HistoryAppend(Log(db.events, run), db.runs[run], row);
    ContextAppend(members, Log(db.events, run), ProjectNodes(db.nodes, db.runs[run].project), row);
  }

  /** The rest of the tables, when run `run` alone has changed. */
  lemma OtherRunsKept(db: Db, db': Db, run: RunId)
    requires Domains(db) && RunsOk(db) && Domains(db')
    requires run in db'.runs && RunOk(db', run)
    requires db'.runs.Keys == db.runs.Keys + {run} && OneRunning(db'.runs) && NodesGrow(db.nodes, db'.nodes)
    requires forall r | r in db.runs && r != run :: SameRun(db, db', r)
    ensures RunsOk(db')
  {
    forall r | r in db'.runs ensures RunOk(db', r) {
      if r != run {
        RunOkKept(db, db', r);
      }
    }
  }

  predicate ChangesContext(d: EventData) { d.ContextAdded? || d.ContextRemoved? || d.ContextCarried? }

  /** Events that only record: they change no table but the history. */
  predicate Plain(d: EventData) { !ChangesContext(d) && !d.DagNodeCreated? && !d.DagEdgeCreated? }

  lemma OtherLogsKept(db: Db, run: RunId, d: EventData)
    ensures forall r | r != run :: Log(WithEvent(db, run, d).events, r) == Log(db.events, r)
  {
    forall r | r != run ensures Log(WithEvent(db, run, d).events, r) == Log(db.events, r) {
      LogAppend(db.events, NextRow(db, run, d), r);
    }
  }

  lemma EventDomains(db: Db, run: RunId, d: EventData)
    requires Domains(db) && run in db.runs
    ensures Domains(WithEvent(db, run, d))
  {
  }

  lemma GrownRunKept(db: Db, mid: Db, run: RunId, d: EventData)
    requires Domains(db) && Domains(mid) && IsRunning(db, run) && RunOk(db, run)
    requires mid.runs == db.runs && mid.events == db.events && mid.context == db.context && NodesGrow(db.nodes, mid.nodes)
    requires !ChangesContext(d) && Mid(d, Others(db, run))
    ensures Domains(WithEvent(mid, run, d)) && RunOk(WithEvent(mid, run, d), run)
  {
    EventDomains(mid, run, d);
    RunOkKept(db, mid, run);
    MoreProjectNodes(db.nodes, mid.nodes, db.runs[run].project);
    EventKeepsRun(mid, run, mid.context[run].Keys, d);
  }

  lemma OtherRunSame(db: Db, mid: Db, run: RunId, d: EventData, r: RunId)
    requires mid.runs == db.runs && mid.events == db.events && mid.context == db.context
    requires r in db.runs && r in db.context && r != run
    ensures SameRun(db, WithEvent(mid, run, d), r)
  {
    LogAppend(db.events, NextRow(mid, run, d), r);
  }

  /** One event of a running run, the node and edge tables having grown to those of `mid`. */
  lemma StepKeepsRuns(db: Db, mid: Db, run: RunId, d: EventData)
    requires Domains(db) && RunsOk(db) && IsRunning(db, run) && RunOk(db, run)
    requires mid.runs == db.runs && mid.events == db.events && mid.context == db.context && NodesGrow(db.nodes, mid.nodes)
    requires Domains(mid) && !ChangesContext(d) && Mid(d, Others(db, run))
    ensures Domains(WithEvent(mid, run, d)) && RunsOk(WithEvent(mid, run, d))
  {
    GrownRunKept(db, mid, run, d);
    forall r | r in db.runs && r != run ensures SameRun(db, WithEvent(mid, run, d), r) {
      OtherRunSame(db, mid, run, d, r);
    }
    OtherRunsKept(db, WithEvent(mid, run, d), run);
  }

  lemma AppendKeepsInv(db: Db, run: RunId, d: EventData)
    requires Inv(db) && IsRunning(db, run) && RunOk(db, run) && Plain(d) && Mid(d, Others(db, run))
    ensures AppendEvent(db, run, d) == Ok(WithEvent(db, run, d)) && Inv(WithEvent(db, run, d))
  {
    AppendsNextRow(db, run, d);
    ReplayAppend(db.events, NextRow(db, run, d), db.runs);
    StepKeepsRuns(db, db, run, d);
  }

  // ---- A node and its announcement ----

  lemma ReplayKnowsNodes(db: Db, id: NodeId, e: Event, node: Node)
    requires Replayed(db) && id !in db.nodes
    requires e.run in db.runs && node.project == db.runs[e.run].project
    requires (e.data.MessageRecorded? && e.data.task == id && node.nodeType == ConversationNode)
          || (e.data.DagNodeCreated? && e.data.node == id && node.nodeType == e.data.nodeType)
    ensures Replayed(db.(nodes := db.nodes[id := node], events := db.events + [e]))
  {
    ReplayAppend(db.events, e, db.runs);
  }

  lemma GraphKeepsMoreNodes(nodes: map<NodeId, Node>, more: map<NodeId, Node>, edges: seq<Edge>)
    requires GraphOk(nodes, edges) && NodesGrow(nodes, more)
    ensures GraphOk(more, edges)
  {
  }

  function NodeStep(db: Db, run: RunId, id: NodeId, nodeType: NodeType, payload: Payload, now: Instant): Db
    requires run in db.runs
  {
    db.(nodes := db.nodes[id := Node(db.runs[run].project, nodeType, payload, now)])
  }

  lemma AnnouncesNode(db: Db, run: RunId, id: NodeId, nodeType: NodeType, payload: Payload, ref: string, now: Instant)
    requires IsRunning(db, run) && Numbered(Log(db.events, run))
    requires AnnounceNode(db, run, id, nodeType, payload, ref, now).Ok?
    ensures id !in db.nodes && db.runs[run].project in db.projects
    ensures AnnounceNode(db, run, id, nodeType, payload, ref, now)
      == Ok(WithEvent(NodeStep(db, run, id, nodeType, payload, now), run, DagNodeCreated(id, nodeType, ref)))
  {
    AppendsNextRow(NodeStep(db, run, id, nodeType, payload, now), run, DagNodeCreated(id, nodeType, ref));
  }

  lemma NodeStepDomains(db: Db, run: RunId, id: NodeId, nodeType: NodeType, payload: Payload, now: Instant)
    requires Domains(db) && run in db.runs && db.runs[run].project in db.projects
    requires id !in db.nodes
    ensures Domains(NodeStep(db, run, id, nodeType, payload, now))
    ensures NodesGrow(db.nodes, NodeStep(db, run, id, nodeType, payload, now).nodes)
  {
  }

  lemma DagEventsAreMid(node: NodeId, nodeType: NodeType, ref: string, edge: EdgeId, from: NodeId, to: NodeId,
                        edgeType: EdgeType, others: set<NodeId>)
    ensures Mid(DagNodeCreated(node, nodeType, ref), others) && !ChangesContext(DagNodeCreated(node, nodeType, ref))
    ensures Mid(DagEdgeCreated(edge, from, to, edgeType), others) && !ChangesContext(DagEdgeCreated(edge, from, to, edgeType))
  {
  }

  lemma NodeStepReplayed(db: Db, run: RunId, id: NodeId, nodeType: NodeType, payload: Payload, ref: string, now: Instant)
    requires Replayed(db) && run in db.runs && id !in db.nodes
    ensures Replayed(WithEvent(NodeStep(db, run, id, nodeType, payload, now), run, DagNodeCreated(id, nodeType, ref)))
  {
    ReplayKnowsNodes(db, id, NextRow(db, run, DagNodeCreated(id, nodeType, ref)),
                     Node(db.runs[run].project, nodeType, payload, now));
  }

  lemma NodeKeepsInv(db: Db, run: RunId, id: NodeId, nodeType: NodeType, payload: Payload, ref: string, now: Instant)
    requires Inv(db) && IsRunning(db, run) && RunOk(db, run) && id !in db.nodes && db.runs[run].project in db.projects
    ensures Inv(WithEvent(NodeStep(db, run, id, nodeType, payload, now), run, DagNodeCreated(id, nodeType, ref)))
  {
    var d, mid := DagNodeCreated(id, nodeType, ref), NodeStep(db, run, id, nodeType, payload, now);
    NodeStepDomains(db, run, id, nodeType, payload, now);
    DagEventsAreMid(id, nodeType, ref, 0, 0, 0, DependsOn, Others(db, run));
    StepKeepsRuns(db, mid, run, d);
    NodeStepReplayed(db, run, id, nodeType, payload, ref, now);
    GraphKeepsMoreNodes(db.nodes, mid.nodes, db.edges);
  }

  // ---- An edge and its announcement ----

  lemma ArrowsAppend(edges: seq<Edge>, e: Edge)
    ensures ArrowsOf(edges + [e]) == ArrowsOf(edges) + {Arrow(e.from, e.to)}
  {
    forall a ensures a in ArrowsOf(edges + [e]) <==> a in ArrowsOf(edges) || a == Arrow(e.from, e.to) {
      if a in ArrowsOf(edges) {
        var x :| x in edges && Arrow(x.from, x.to) == a;
        assert x in edges + [e];
      }
      assert e in edges + [e];
    }
  }

  /** An edge that is not refused keeps the graph acyclic and its triples distinct. */
  lemma EdgeKeepsGraph(db: Db, project: ProjectId, id: EdgeId, from: NodeId, to: NodeId, edgeType: EdgeType)
    requires GraphOk(db.nodes, db.edges) && InsertEdge(db, project, id, from, to, edgeType).Ok?
    ensures GraphOk(db.nodes, db.edges + [Edge(id, project, from, to, edgeType)])
  {
    ArrowsAppend(db.edges, Edge(id, project, from, to, edgeType));
    AcyclicWithNew(ArrowsOf(db.edges), from, to);
  }

  function EdgeStep(db: Db, run: RunId, id: EdgeId, from: NodeId, to: NodeId, edgeType: EdgeType): Db
    requires run in db.runs
  {
    db.(edges := db.edges + [Edge(id, db.runs[run].project, from, to, edgeType)])
  }

  lemma AnnouncesEdge(db: Db, run: RunId, id: EdgeId, from: NodeId, to: NodeId, edgeType: EdgeType)
    requires IsRunning(db, run) && Numbered(Log(db.events, run))
    requires AnnounceEdge(db, run, id, from, to, edgeType).Ok?
    ensures InsertEdge(db, db.runs[run].project, id, from, to, edgeType).Ok?
    ensures AnnounceEdge(db, run, id, from, to, edgeType)
      == Ok(WithEvent(EdgeStep(db, run, id, from, to, edgeType), run, DagEdgeCreated(id, from, to, edgeType)))
  {
    AppendsNextRow(EdgeStep(db, run, id, from, to, edgeType), run, DagEdgeCreated(id, from, to, edgeType));
  }

  lemma EdgeStepReplayed(db: Db, run: RunId, id: EdgeId, from: NodeId, to: NodeId, edgeType: EdgeType)
    requires Replayed(db) && run in db.runs
    ensures Replayed(WithEvent(EdgeStep(db, run, id, from, to, edgeType), run, DagEdgeCreated(id, from, to, edgeType)))
  {
    ReplayAppend(db.events, NextRow(db, run, DagEdgeCreated(id, from, to, edgeType)), db.runs);
  }

  lemma EdgeKeepsInv(db: Db, run: RunId, id: EdgeId, from: NodeId, to: NodeId, edgeType: EdgeType)
    requires Inv(db) && IsRunning(db, run) && RunOk(db, run)
    requires InsertEdge(db, db.runs[run].project, id, from, to, edgeType).Ok?
    ensures Inv(WithEvent(EdgeStep(db, run, id, from, to, edgeType), run, DagEdgeCreated(id, from, to, edgeType)))
  {
    DagEventsAreMid(0, TaskNode, "", id, from, to, edgeType, Others(db, run));
    StepKeepsRuns(db, EdgeStep(db, run, id, from, to, edgeType), run, DagEdgeCreated(id, from, to, edgeType));
    EdgeStepReplayed(db, run, id, from, to, edgeType);
    EdgeKeepsGraph(db, db.runs[run].project, id, from, to, edgeType);
  }
}
