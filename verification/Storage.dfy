/** The store itself: its tables, the operations of an open transaction, and transactions that commit
    as a whole or leave no trace. Each operation does to the tables what `Database` says. */
module Storage {
  import opened Common
  import opened Graph
  import opened Records
  import opened Database

  class Store {
    var projects: set<ProjectId>
    var conversations: map<ConversationId, ProjectId>
    var nodes: map<NodeId, Node>
    var edges: seq<Edge>
    var runs: map<RunId, Run>
    var events: seq<Event>
    var context: map<RunId, map<NodeId, Source>>
    /** The tables a rollback restores, while a transaction is open. */
    var saved: Option<Db>
    /** Events appended in the open transaction, and the events listeners have been told. */
    var appended: seq<Event>
    var published: seq<Event>

    /** The tables as a value. */
    function State(): Db reads this { Db(projects, conversations, nodes, edges, runs, events, context) }

    /** Listeners have been told exactly the committed events, in order. */
    ghost predicate Valid() reads this { saved.None? && appended == [] && published == events }

    /** In a transaction, what has been appended is on top of what is committed. */
    ghost predicate InTx() reads this {
      saved.Some? && saved.value.events == published && events == published + appended
    }

    /** The operation did what `spec` says, or was refused as it says. */
    ghost predicate Does(r: Result<(), StoreError>, spec: Result<Db, StoreError>) reads this {
      (r.Ok? <==> spec.Ok?) && (r.Ok? ==> State() == spec.value) && (r.Err? ==> r.error == spec.error)
    }

    constructor ()
      ensures Valid() && State() == EMPTY
    {
      projects, conversations, nodes, edges, runs, events, context := {}, map[], map[], [], map[], [], map[];
      saved, appended, published := None, [], [];
    }

    // ---- Transactions ----

    method Begin()
      requires Valid()
      modifies this
      ensures State() == old(State()) && InTx() && saved == Some(State())
    {
      saved := Some(State());
    }

    /** Keeps the changes and tells listeners what was appended. */
    method Commit()
      requires InTx()
      modifies this
      ensures Valid() && State() == old(State()) && published == old(published) + old(appended)
    {
      published := published + appended;
      saved, appended := None, [];
    }

    /** Drops the changes; listeners are told nothing. */
    method Rollback()
      requires InTx()
      modifies this
      ensures Valid() && State() == old(saved.value) && published == old(published)
    {
      var db := saved.value;
      projects, conversations, nodes, edges := db.projects, db.conversations, db.nodes, db.edges;
      runs, events, context := db.runs, db.events, db.context;
      saved, appended := None, [];
    }

    // ---- Events and runs ----

    method AppendEvent(run: RunId, d: EventData) returns (r: Result<(), StoreError>)
      requires InTx()
      modifies this
      ensures InTx() && saved == old(saved)
      ensures Does(r, Database.AppendEvent(old(State()), run, d)) && (r.Err? ==> State() == old(State()))
    {
      var running := RequireRunning(State(), run);
      if running.Err? { return Err(running.error); }
      var event := Event(run, MaxSequence(Log(events, run)) + 1, d);
      events := events + [event];
      appended := appended + [event];
      return Ok(());
    }

    method AppendAll(run: RunId, data: seq<EventData>) returns (r: Result<(), StoreError>)
      requires InTx()
      modifies this
      ensures InTx() && saved == old(saved)
      ensures Does(r, AppendEvents(old(State()), run, data))
    {
      ghost var start := State();
      for i := 0 to |data|
        invariant InTx() && saved == old(saved)
        invariant AppendEvents(start, run, data) == AppendEvents(State(), run, data[i..])
      {
        var one := AppendEvent(run, data[i]);
        if one.Err? { return one; }
        assert data[i..][0] == data[i] && data[i..][1..] == data[i + 1..];
      }
      return Ok(());
    }

    method CreateRunIn(conversation: ConversationId, run: RunId, now: Instant) returns (r: Result<(), StoreError>)
      requires InTx()
      modifies this
      ensures InTx() && saved == old(saved)
      ensures Does(r, CreateRun(old(State()), conversation, run, now))
    {
      if conversation !in conversations { return Err(NotFound); }
      var project := conversations[conversation];
      if HasRunning(State(), project) { return Err(RunInProgress); }
      if run in runs { return Err(IdTaken); }
      runs := runs[run := Run(project, conversation, Running, now, None)];
      r := AppendEvent(run, RunStarted);
    }

    method FinishRun(run: RunId, status: Status, code: Option<ErrorCode>)
      requires InTx() && run in runs
      modifies this
      ensures InTx() && saved == old(saved) && State() == Finish(old(State()), run, status, code)
    {
      runs := runs[run := runs[run].(status := status, errorCode := code)];
    }

    method CompleteRun(run: RunId) returns (r: Result<(), StoreError>)
      requires InTx()
      modifies this
      ensures InTx() && saved == old(saved)
      ensures Does(r, Database.CompleteRun(old(State()), run))
    {
      r := AppendEvent(run, RunCompleted);
      if r.Ok? { FinishRun(run, Completed, None); }
    }

    method FailRun(run: RunId, code: ErrorCode, message: string) returns (r: Result<(), StoreError>)
      requires InTx()
      modifies this
      ensures InTx() && saved == old(saved)
      ensures Does(r, Database.FailRun(old(State()), run, code, message))
    {
      r := AppendEvent(run, RunFailed(code, message));
      if r.Ok? { FinishRun(run, Failed, Some(code)); }
    }

    // ---- The graph ----

    method InsertNode(project: ProjectId, id: NodeId, nodeType: NodeType, payload: Payload, now: Instant)
      returns (r: Result<(), StoreError>)
      requires InTx()
      modifies this
      ensures InTx() && saved == old(saved)
      ensures Does(r, Database.InsertNode(old(State()), project, id, nodeType, payload, now))
    {
      if project !in projects { return Err(NotFound); }
      if id in nodes { return Err(IdTaken); }
      nodes := nodes[id := Node(project, nodeType, payload, now)];
      return Ok(());
    }

    /** Searches for a path: grows the set of nodes reached from `start` until no edge leads out of it. */
    method Reaches(start: NodeId, target: NodeId) returns (r: bool)
      ensures r <==> Reach(ArrowsOf(edges), start, target)
    {
      var reachable: set<NodeId> := {start};
      var frontier: set<NodeId> := {start};
      var ends := set e | e in edges :: e.to;
      ReachSelf(ArrowsOf(edges), start);
      while frontier != {}
        invariant start in reachable && frontier <= reachable <= ends + {start}
        invariant forall n | n in reachable :: Reach(ArrowsOf(edges), start, n)
        invariant ClosedBut(edges, reachable, frontier)
        decreases |ends + {start} - reachable|, |frontier|
      {
        var next: NodeId :| next in frontier;
        var found := set e | e in edges && e.from == next && e.to !in reachable :: e.to;
        FoundReachable(edges, start, next, found);
        StaysClosed(edges, reachable, frontier, next, found);
        if found == {} {
          assert reachable + found == reachable && frontier - {next} + found == frontier - {next};
          frontier := frontier - {next};
        } else {
          MoreReached(ends + {start}, reachable, found);
          reachable := reachable + found;
          frontier := frontier - {next} + found;
        }
      }
      if target !in reachable && Reach(ArrowsOf(edges), start, target) {
        ClosedUnderEdges(edges, reachable);
        ClosedHoldsReachable(ArrowsOf(edges), reachable, start, target);
      }
      return target in reachable;
    }

    method InsertEdge(project: ProjectId, id: EdgeId, from: NodeId, to: NodeId, edgeType: EdgeType)
      returns (r: Result<(), StoreError>)
      requires InTx()
      modifies this
      ensures InTx() && saved == old(saved)
      ensures Does(r, Database.InsertEdge(old(State()), project, id, from, to, edgeType))
    {
      if project !in projects { return Err(NotFound); }
      var refusal := ValidateEdge(project, from, to, edgeType);
      if refusal.Some? { return Err(refusal.value); }
      if exists e :: e in edges && e.id == id { return Err(IdTaken); }
      edges := edges + [Edge(id, project, from, to, edgeType)];
      return Ok(());
    }

    method ValidateEdge(project: ProjectId, from: NodeId, to: NodeId, edgeType: EdgeType) returns (r: Option<StoreError>)
      ensures r == EdgeRefusal(State(), project, from, to, edgeType)
    {
      if !NodeInProject(nodes, project, from) { return Some(UnknownNode(from)); }
      if !NodeInProject(nodes, project, to) { return Some(UnknownNode(to)); }
      if from == to { return Some(SelfLoop(from)); }
      if exists e :: e in edges && e.from == from && e.to == to && e.edgeType == edgeType {
        return Some(DuplicateEdge(from, to, edgeType));
      }
      var cyclic := Reaches(to, from);
      return if cyclic then Some(Cycle(from, to, edgeType)) else None;
    }

    // ---- Active context ----

    method ReplaceContext(run: RunId, members: seq<Member>) returns (r: Result<(), StoreError>)
      requires InTx()
      modifies this
      ensures InTx() && saved == old(saved)
      ensures Does(r, Database.ReplaceContext(old(State()), run, members))
    {
      var running := RequireRunning(State(), run);
      if running.Err? { return Err(running.error); }
      var project := running.value.project;
      var seen: set<NodeId> := {};
      var rows: map<NodeId, Source> := map[];
      for i := 0 to |members|
        invariant State() == old(State()) && InTx() && saved == old(saved)
        invariant MemberRefusal(State(), project, members, {}) == MemberRefusal(State(), project, members[i..], seen)
        invariant rows == MembersOf(members[..i])
      {
        var node := members[i].node;
        assert members[i..][0] == members[i] && members[i..][1..] == members[i + 1..];
        assert members[..i + 1][..i] == members[..i];
        if node in seen { return Err(DuplicateContextMember(node)); }
        if !NodeInProject(nodes, project, node) { return Err(UnknownNode(node)); }
        seen := seen + {node};
        rows := rows[node := members[i].source];
      }
      assert members[..|members|] == members;
      context := context[run := rows];
      return Ok(());
    }

    method CarryContext(run: RunId) returns (r: Result<(), StoreError>)
      requires InTx()
      modifies this
      ensures InTx() && saved == old(saved)
      ensures Does(r, Database.CarryContext(old(State()), run))
    {
      if run !in runs { return Err(NotFound); }
      var previous := PreviousRun(runs, run);
      var carried := if previous.None? then map[] else map n | n in ContextOf(State(), previous.value) :: Carried;
      r := ReplaceContext(run, Listing(carried));
      if r.Err? { return; }
      if !(carried.Keys <= nodes.Keys) { return Err(NotFound); }
      r := AppendEvent(run, ContextCarried(previous, Ranked(nodes, carried.Keys)));
    }

    /** Replaces a run's context and records the change, joins before leaves. */
    method ChangeContext(run: RunId, after: map<NodeId, Source>, head: EventData) returns (r: Result<(), StoreError>)
      requires InTx()
      modifies this
      ensures InTx() && saved == old(saved)
      ensures Does(r, Database.ChangeContext(old(State()), run, after, head))
    {
      var before := ContextOf(State(), run);
      r := ReplaceContext(run, Listing(after));
      if r.Err? { return; }
      if !(before.Keys <= nodes.Keys && after.Keys <= nodes.Keys) { return Err(NotFound); }
      var added := Ranked(nodes, after.Keys - before.Keys);
      var removed := Ranked(nodes, before.Keys - after.Keys);
      r := AppendAll(run, [head] + Added(added) + Removed(removed));
    }

    method ApplyClassification(run: RunId, c: Classification) returns (r: Result<(), StoreError>)
      requires InTx()
      modifies this
      ensures InTx() && saved == old(saved)
      ensures Does(r, Database.ApplyClassification(old(State()), run, c))
    {
      var membership := ContextOf(State(), run);
      for i := 0 to |c.entries|
        invariant membership == Membership(ContextOf(State(), run), c.entries[..i])
      {
        assert c.entries[..i + 1][..i] == c.entries[..i];
        if c.entries[i].active {
          membership := membership[c.entries[i].node := Jev];
        } else {
          membership := membership - {c.entries[i].node};
        }
      }
      assert c.entries[..|c.entries|] == c.entries;
      r := ChangeContext(run, membership, JevClassified(c));
    }

    method ExpandContext(run: RunId, task: NodeId) returns (r: Result<(), StoreError>)
      requires InTx()
      modifies this
      ensures InTx() && saved == old(saved)
      ensures Does(r, Database.ExpandContext(old(State()), run, task))
    {
      if run !in runs { return Err(NotFound); }
      var before := ContextOf(State(), run);
      var more := map n | n in ProjectNodes(nodes, runs[run].project) && n != task && n !in before :: Jev;
      r := ChangeContext(run, before + more, ContextExpanded);
    }

    // ---- Responses and findings ----

    method AnnounceNode(run: RunId, id: NodeId, nodeType: NodeType, payload: Payload, ref: string, now: Instant)
      returns (r: Result<(), StoreError>)
      requires InTx() && run in runs
      modifies this
      ensures InTx() && saved == old(saved)
      ensures Does(r, Database.AnnounceNode(old(State()), run, id, nodeType, payload, ref, now))
    {
      r := InsertNode(runs[run].project, id, nodeType, payload, now);
      if r.Ok? { r := AppendEvent(run, DagNodeCreated(id, nodeType, ref)); }
    }

    method AnnounceEdge(run: RunId, id: EdgeId, from: NodeId, to: NodeId, edgeType: EdgeType) returns (r: Result<(), StoreError>)
      requires InTx() && run in runs
      modifies this
      ensures InTx() && saved == old(saved)
      ensures Does(r, Database.AnnounceEdge(old(State()), run, id, from, to, edgeType))
    {
      r := InsertEdge(runs[run].project, id, from, to, edgeType);
      if r.Ok? { r := AppendEvent(run, DagEdgeCreated(id, from, to, edgeType)); }
    }

    method CreateNodes(run: RunId, emissions: seq<Emission>, ids: seq<nat>, now: Instant)
      returns (r: Result<map<string, NodeId>, StoreError>)
      requires InTx() && run in runs && |ids| == |emissions|
      modifies this
      ensures InTx() && saved == old(saved)
      ensures var spec := Database.CreateNodes(old(State()), run, emissions, ids, now);
        (r.Ok? <==> spec.Ok?) && (r.Ok? ==> (State(), r.value) == spec.value) && (r.Err? ==> r.error == spec.error)
    {
      var created: map<string, NodeId> := map[];
      for i := 0 to |emissions|
        invariant InTx() && saved == old(saved) && run in runs
        invariant Database.CreateNodes(old(State()), run, emissions[..i], ids[..i], now) == Ok((State(), created))
      {
        assert emissions[..i + 1][..i] == emissions[..i] && ids[..i + 1][..i] == ids[..i];
        match emissions[i] {
          case EmitEdge(_, _, _) =>
          case EmitNode(ref, nodeType, payload) =>
            var one := AnnounceNode(run, ids[i], nodeType, payload, ref, now);
            if one.Err? {
              NodesFailEarly(old(State()), run, emissions, ids, now, i + 1);
              return Err(one.error);
            }
            created := created[ref := ids[i]];
        }
      }
      assert emissions[..|emissions|] == emissions && ids[..|emissions|] == ids;
      return Ok(created);
    }

    method CreateEdges(run: RunId, emissions: seq<Emission>, created: map<string, NodeId>, ids: seq<nat>)
      returns (r: Result<(), StoreError>)
      requires InTx() && run in runs && |ids| == |emissions| && EndpointsResolve(created.Keys, emissions)
      modifies this
      ensures InTx() && saved == old(saved)
      ensures Does(r, Database.CreateEdges(old(State()), run, emissions, created, ids))
    {
      for i := 0 to |emissions|
        invariant InTx() && saved == old(saved) && run in runs
        invariant Database.CreateEdges(old(State()), run, emissions[..i], created, ids[..i]) == Ok(State())
      {
        assert emissions[..i + 1][..i] == emissions[..i] && ids[..i + 1][..i] == ids[..i];
        if emissions[i].EmitEdge? {
          var e := emissions[i];
          assert e in emissions;
          var one := AnnounceEdge(run, ids[i], Resolve(created, e.from), Resolve(created, e.to), e.edgeType);
          if one.Err? {
            EdgesFailEarly(old(State()), run, emissions, created, ids, i + 1);
            return one;
          }
        }
      }
      assert emissions[..|emissions|] == emissions && ids[..|emissions|] == ids;
      return Ok(());
    }

    method ApplyResponse(run: RunId, response: Response, ids: seq<nat>, now: Instant) returns (r: Result<(), StoreError>)
      requires InTx() && |ids| == |response.emissions| && EndpointsResolve(RefsOf(response.emissions), response.emissions)
      modifies this
      ensures InTx() && saved == old(saved)
      ensures Does(r, Database.ApplyResponse(old(State()), run, response, ids, now))
    {
      r := AppendEvent(run, ResponseValidated(response));
      if r.Err? { return; }
      var created := CreateNodes(run, response.emissions, ids, now);
      if created.Err? { return Err(created.error); }
      r := CreateEdges(run, response.emissions, created.value, ids);
    }

    method RecordFindings(run: RunId, findings: seq<Finding>, ids: seq<nat>, refs: seq<string>, now: Instant)
      returns (r: Result<(), StoreError>)
      requires InTx() && run in runs && |ids| == |findings| == |refs|
      modifies this
      ensures InTx() && saved == old(saved)
      ensures Does(r, Database.RecordFindings(old(State()), run, findings, ids, refs, now))
    {
      var existing := State();
      for i := 0 to |findings|
        invariant InTx() && saved == old(saved) && run in runs && existing == old(State())
        invariant Database.RecordFindings(existing, run, findings[..i], ids[..i], refs[..i], now) == Ok(State())
      {
        assert findings[..i + 1][..i] == findings[..i] && ids[..i + 1][..i] == ids[..i] && refs[..i + 1][..i] == refs[..i];
        var finding := findings[i];
        if !AlreadyFound(existing, existing.runs[run].project, finding) {
          var payload := LintFinding(finding.rule, finding.file, finding.functionName);
          var one := AnnounceNode(run, ids[i], ObservationNode, payload, refs[i], now);
          if one.Err? {
            FindingsFailEarly(existing, run, findings, ids, refs, now, i + 1);
            return one;
          }
        }
      }
      assert findings[..|findings|] == findings && ids[..|findings|] == ids && refs[..|findings|] == refs;
      return Ok(());
    }

    method StartRun(conversation: ConversationId, run: RunId, task: NodeId, text: string, now: Instant) returns (r: Result<(), StoreError>)
      requires InTx()
      modifies this
      ensures InTx() && saved == old(saved)
      ensures Does(r, Database.StartRun(old(State()), conversation, run, task, text, now))
    {
      r := CreateRunIn(conversation, run, now);
      if r.Err? { return; }
      r := InsertNode(conversations[conversation], task, ConversationNode, UserTurn(text), now);
      if r.Err? { return; }
      r := AppendEvent(run, MessageRecorded(task, text));
      if r.Err? { return; }
      r := CarryContext(run);
    }

    method FailWith(run: RunId, evidence: Option<EventData>, code: ErrorCode, message: string) returns (r: Result<(), StoreError>)
      requires InTx()
      modifies this
      ensures InTx() && saved == old(saved)
      ensures Does(r, Database.FailWith(old(State()), run, evidence, code, message))
    {
      if evidence.Some? {
        r := AppendEvent(run, evidence.value);
        if r.Err? { return; }
      }
      r := FailRun(run, code, message);
    }

    // ---- Whole transactions ----

    /** Committed whole if it succeeded, and otherwise not at all, listeners having been told nothing. */
    ghost predicate Committed(before: Db, told: seq<Event>, r: Result<(), StoreError>, spec: Result<Db, StoreError>) reads this {
      Valid() && (r.Ok? <==> spec.Ok?) && (r.Err? ==> r.error == spec.error && published == told)
      && State() == if spec.Ok? then spec.value else before
    }

    method CommitOrRollback(r: Result<(), StoreError>, ghost spec: Result<Db, StoreError>)
      requires InTx() && Does(r, spec)
      modifies this
      ensures Valid() && State() == if r.Ok? then spec.value else old(saved.value)
      ensures r.Err? ==> published == old(published)
    {
      if r.Ok? { Commit(); } else { Rollback(); }
    }

    method CreateProject(project: ProjectId)
      requires Valid()
      modifies this
      ensures Valid() && State() == old(State()).(projects := old(State()).projects + {project})
    {
      projects := projects + {project};
    }

    method CreateConversation(project: ProjectId, conversation: ConversationId) returns (r: Result<(), StoreError>)
      requires Valid()
      modifies this
      ensures Committed(old(State()), old(published), r, AddConversationTo(old(State()), project, conversation))
    {
      if project !in projects { return Err(NotFound); }
      if conversation in conversations { return Err(IdTaken); }
      conversations := conversations[conversation := project];
      return Ok(());
    }

    /** Several events at once. */
    method RecordAll(run: RunId, data: seq<EventData>) returns (r: Result<(), StoreError>)
      requires Valid()
      modifies this
      ensures Committed(old(State()), old(published), r, AppendEvents(old(State()), run, data))
    {
      Begin();
      r := AppendAll(run, data);
      CommitOrRollback(r, AppendEvents(old(State()), run, data));
    }

    method Start(conversation: ConversationId, run: RunId, task: NodeId, text: string, now: Instant) returns (r: Result<(), StoreError>)
      requires Valid()
      modifies this
      ensures Committed(old(State()), old(published), r, Database.StartRun(old(State()), conversation, run, task, text, now))
    {
      Begin();
      r := StartRun(conversation, run, task, text, now);
      CommitOrRollback(r, Database.StartRun(old(State()), conversation, run, task, text, now));
    }

    method Record(run: RunId, d: EventData) returns (r: Result<(), StoreError>)
      requires Valid()
      modifies this
      ensures Committed(old(State()), old(published), r, Database.AppendEvent(old(State()), run, d))
    {
      Begin();
      r := AppendEvent(run, d);
      CommitOrRollback(r, Database.AppendEvent(old(State()), run, d));
    }

    method Classify(run: RunId, c: Classification) returns (r: Result<(), StoreError>)
      requires Valid()
      modifies this
      ensures Committed(old(State()), old(published), r, Database.ApplyClassification(old(State()), run, c))
    {
      Begin();
      r := ApplyClassification(run, c);
      CommitOrRollback(r, Database.ApplyClassification(old(State()), run, c));
    }

    method Expand(run: RunId, task: NodeId) returns (r: Result<(), StoreError>)
      requires Valid()
      modifies this
      ensures Committed(old(State()), old(published), r, Database.ExpandContext(old(State()), run, task))
    {
      Begin();
      r := ExpandContext(run, task);
      CommitOrRollback(r, Database.ExpandContext(old(State()), run, task));
    }

    /** A response leaves its whole effect or, if the graph refuses any of it, none. */
    method Respond(run: RunId, response: Response, ids: seq<nat>, now: Instant) returns (r: Result<(), StoreError>)
      requires Valid() && |ids| == |response.emissions| && EndpointsResolve(RefsOf(response.emissions), response.emissions)
      modifies this
      ensures Committed(old(State()), old(published), r, Database.ApplyResponse(old(State()), run, response, ids, now))
    {
      Begin();
      r := ApplyResponse(run, response, ids, now);
      CommitOrRollback(r, Database.ApplyResponse(old(State()), run, response, ids, now));
    }

    method Remember(run: RunId, findings: seq<Finding>, ids: seq<nat>, refs: seq<string>, now: Instant) returns (r: Result<(), StoreError>)
      requires Valid() && run in runs && |ids| == |findings| == |refs|
      modifies this
      ensures Committed(old(State()), old(published), r, Database.RecordFindings(old(State()), run, findings, ids, refs, now))
    {
      Begin();
      r := RecordFindings(run, findings, ids, refs, now);
      CommitOrRollback(r, Database.RecordFindings(old(State()), run, findings, ids, refs, now));
    }

    method Complete(run: RunId) returns (r: Result<(), StoreError>)
      requires Valid()
      modifies this
      ensures Committed(old(State()), old(published), r, Database.CompleteRun(old(State()), run))
    {
      Begin();
      r := CompleteRun(run);
      CommitOrRollback(r, Database.CompleteRun(old(State()), run));
    }

    method Fail(run: RunId, evidence: Option<EventData>, code: ErrorCode, message: string) returns (r: Result<(), StoreError>)
      requires Valid()
      modifies this
      ensures Committed(old(State()), old(published), r, Database.FailWith(old(State()), run, evidence, code, message))
    {
      Begin();
      r := FailWith(run, evidence, code, message);
      CommitOrRollback(r, Database.FailWith(old(State()), run, evidence, code, message));
    }
  }

  /** No edge leads out of the reached nodes but from the frontier. */
  predicate ClosedBut(edges: seq<Edge>, reachable: set<NodeId>, frontier: set<NodeId>) {
    forall e | e in edges && e.from in reachable && e.from !in frontier :: e.to in reachable
  }

  lemma StaysClosed(edges: seq<Edge>, reachable: set<NodeId>, frontier: set<NodeId>, next: NodeId, found: set<NodeId>)
    requires ClosedBut(edges, reachable, frontier)
    requires forall e | e in edges && e.from == next && e.to !in reachable :: e.to in found
    ensures ClosedBut(edges, reachable + found, frontier - {next} + found)
  {
    forall e | e in edges && e.from in reachable + found && e.from !in frontier - {next} + found ensures e.to in reachable + found {
      assert e.from !in found && e.from in reachable;
    }
  }

  lemma FoundReachable(edges: seq<Edge>, start: NodeId, next: NodeId, found: set<NodeId>)
    requires Reach(ArrowsOf(edges), start, next)
    requires forall n | n in found :: exists e :: e in edges && e.from == next && e.to == n
    ensures forall n | n in found :: Reach(ArrowsOf(edges), start, n)
  {
    forall n | n in found ensures Reach(ArrowsOf(edges), start, n) {
      var e :| e in edges && e.from == next && e.to == n;
      assert Arrow(e.from, e.to) in ArrowsOf(edges);
      ReachArrow(ArrowsOf(edges), next, n);
      ReachTrans(ArrowsOf(edges), start, next, n);
    }
  }

  lemma MoreReached(all: set<NodeId>, reachable: set<NodeId>, found: set<NodeId>)
    requires found != {} && found <= all && found !! reachable
    ensures |all - (reachable + found)| < |all - reachable|
  {
    var x :| x in found;
    assert all - reachable == (all - (reachable + found)) + found;
    assert |all - reachable| == |all - (reachable + found)| + |found|;
  }

  lemma ClosedUnderEdges(edges: seq<Edge>, closed: set<NodeId>)
    requires forall e | e in edges && e.from in closed :: e.to in closed
    ensures forall a | a in ArrowsOf(edges) && a.from in closed :: a.to in closed
  {
  }

  // ---- A batch that fails early fails ----

  lemma NodesFailLast(db: Db, run: RunId, emissions: seq<Emission>, ids: seq<nat>, now: Instant)
    requires run in db.runs && |ids| == |emissions| > 0
    requires Database.CreateNodes(db, run, emissions[..|emissions| - 1], ids[..|emissions| - 1], now).Err?
    ensures Database.CreateNodes(db, run, emissions, ids, now)
      == Database.CreateNodes(db, run, emissions[..|emissions| - 1], ids[..|emissions| - 1], now)
  {
  }

  lemma {:induction false} NodesFailEarly(db: Db, run: RunId, emissions: seq<Emission>, ids: seq<nat>, now: Instant, i: nat)
    requires run in db.runs && |ids| == |emissions| && i <= |emissions|
    requires Database.CreateNodes(db, run, emissions[..i], ids[..i], now).Err?
    ensures Database.CreateNodes(db, run, emissions, ids, now) == Database.CreateNodes(db, run, emissions[..i], ids[..i], now)
    decreases |emissions|
  {
    if i == |emissions| {
      assert emissions[..i] == emissions && ids[..i] == ids;
    } else {
      var k := |emissions| - 1;
      assert emissions[..k][..i] == emissions[..i] && ids[..k][..i] == ids[..i];
      NodesFailEarly(db, run, emissions[..k], ids[..k], now, i);
      NodesFailLast(db, run, emissions, ids, now);
    }
  }

  lemma {:induction false} EdgesFailEarly(db: Db, run: RunId, emissions: seq<Emission>, created: map<string, NodeId>, ids: seq<nat>, i: nat)
    requires run in db.runs && |ids| == |emissions| && i <= |emissions| && EndpointsResolve(created.Keys, emissions)
    requires Database.CreateEdges(db, run, emissions[..i], created, ids[..i]).Err?
    ensures Database.CreateEdges(db, run, emissions, created, ids) == Database.CreateEdges(db, run, emissions[..i], created, ids[..i])
    decreases |emissions|
  {
    if i == |emissions| {
      assert emissions[..i] == emissions && ids[..i] == ids;
    } else {
      var k := |emissions| - 1;
      assert emissions[..k][..i] == emissions[..i] && ids[..k][..i] == ids[..i];
      EdgesFailEarly(db, run, emissions[..k], created, ids[..k], i);
    }
  }

  lemma PrefixOfPrefix<T>(s: seq<T>, k: nat, i: nat)
    requires i <= k <= |s|
    ensures s[..k][..i] == s[..i]
  {
  }

  /** What recording the first `j` findings gives. */
  function Recorded(db: Db, run: RunId, findings: seq<Finding>, ids: seq<nat>, refs: seq<string>, now: Instant, j: nat)
    : Result<Db, StoreError>
    requires run in db.runs && |ids| == |findings| == |refs| && j <= |findings|
  {
    Database.RecordFindings(db, run, findings[..j], ids[..j], refs[..j], now)
  }

  lemma FindingsFailNext(db: Db, run: RunId, findings: seq<Finding>, ids: seq<nat>, refs: seq<string>, now: Instant, j: nat)
    requires run in db.runs && |ids| == |findings| == |refs| && j < |findings|
    requires Recorded(db, run, findings, ids, refs, now, j).Err?
    ensures Recorded(db, run, findings, ids, refs, now, j + 1) == Recorded(db, run, findings, ids, refs, now, j)
  {
    PrefixOfPrefix(findings, j + 1, j);
    PrefixOfPrefix(ids, j + 1, j);
    PrefixOfPrefix(refs, j + 1, j);
  }

  lemma {:induction false} FindingsFailEarly(db: Db, run: RunId, findings: seq<Finding>, ids: seq<nat>, refs: seq<string>, now: Instant,
                                             i: nat)
    requires run in db.runs && |ids| == |findings| == |refs| && i <= |findings|
    requires Recorded(db, run, findings, ids, refs, now, i).Err?
    ensures Database.RecordFindings(db, run, findings, ids, refs, now) == Recorded(db, run, findings, ids, refs, now, i)
    decreases |findings| - i
  {
    if i == |findings| {
      assert findings[..i] == findings && ids[..i] == ids && refs[..i] == refs;
    } else {
      FindingsFailNext(db, run, findings, ids, refs, now, i);
      FindingsFailEarly(db, run, findings, ids, refs, now, i + 1);
    }
  }
}
