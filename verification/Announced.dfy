/** What each transaction appends to its run's history, event by event. */
module Announced {
  import opened Common
  import opened Records
  import opened Database
  import opened Invariants
  import opened ContextSteps
  import opened Compilation
  import opened Responses

  /** A run's history, without the rows it is kept in. */
  function History(db: Db, run: RunId): seq<EventData> { DataOf(Log(db.events, run)) }

  lemma AddNothing(a: seq<EventData>, b: seq<EventData>)
    ensures a + (b + []) == a + b
  {
  }

  lemma Regroup(a: seq<EventData>, b: seq<EventData>, c: seq<EventData>)
    ensures (a + b) + c == a + (b + c)
  {
  }

  lemma AppendTells(db: Db, run: RunId, d: EventData)
    requires AppendEvent(db, run, d).Ok?
    ensures History(AppendEvent(db, run, d).value, run) == History(db, run) + [d]
  {
    LogAppend(db.events, Event(run, MaxSequence(Log(db.events, run)) + 1, d), run);
  }

  lemma {:induction false} AppendsTell(db: Db, run: RunId, data: seq<EventData>)
    requires AppendEvents(db, run, data).Ok?
    ensures History(AppendEvents(db, run, data).value, run) == History(db, run) + data
    decreases |data|
  {
    if data == [] {
      assert History(db, run) + data == History(db, run);
    } else {
      AppendTells(db, run, data[0]);
      AppendsTell(AppendEvent(db, run, data[0]).value, run, data[1..]);
      assert History(db, run) + [data[0]] + data[1..] == History(db, run) + data;
    }
  }

  /** Who joins and who leaves when `before` becomes `after`. */
  function Moves(nodes: map<NodeId, Node>, before: set<NodeId>, after: set<NodeId>): seq<EventData>
    requires before <= nodes.Keys && after <= nodes.Keys
  {
    Added(Ranked(nodes, after - before)) + Removed(Ranked(nodes, before - after))
  }

  /** Only joins and leaves. */
  predicate Changes(more: seq<EventData>) { forall i | 0 <= i < |more| :: more[i].ContextAdded? || more[i].ContextRemoved? }

  lemma ChangesJoin(joins: seq<NodeId>, leaves: seq<NodeId>)
    ensures Changes(Added(joins) + Removed(leaves))
  {
  }

  lemma MovesAre(nodes: map<NodeId, Node>, before: set<NodeId>, after: set<NodeId>, head: EventData)
    requires before <= nodes.Keys && after <= nodes.Keys
    ensures Changes(Moves(nodes, before, after)) && ChangeEvents(nodes, before, after, head) == [head] + Moves(nodes, before, after)
  {
    var joins, leaves := Ranked(nodes, after - before), Ranked(nodes, before - after);
    ChangesJoin(joins, leaves);
    Regroup([head], Added(joins), Removed(leaves));
  }

  lemma ChangeTells(db: Db, run: RunId, after: map<NodeId, Source>, head: EventData) returns (moves: seq<EventData>)
    requires ChangeContext(db, run, after, head).Ok?
    ensures History(ChangeContext(db, run, after, head).value, run) == History(db, run) + ([head] + moves) && Changes(moves)
  {
    var before := ContextOf(db, run);
    moves := Moves(db.nodes, before.Keys, after.Keys);
    MovesAre(db.nodes, before.Keys, after.Keys, head);
    AppendsTell(ReplaceContext(db, run, Listing(after)).value, run, ChangeEvents(db.nodes, before.Keys, after.Keys, head));
  }

  lemma ClassificationTells(db: Db, run: RunId, c: Classification) returns (moves: seq<EventData>)
    requires ApplyClassification(db, run, c).Ok?
    ensures History(ApplyClassification(db, run, c).value, run) == History(db, run) + ([JevClassified(c)] + moves) && Changes(moves)
  {
    moves := ChangeTells(db, run, Membership(ContextOf(db, run), c.entries), JevClassified(c));
  }

  lemma ExpansionTells(db: Db, run: RunId, task: NodeId) returns (moves: seq<EventData>)
    requires ExpandContext(db, run, task).Ok?
    ensures History(ExpandContext(db, run, task).value, run) == History(db, run) + ([ContextExpanded] + moves) && Changes(moves)
  {
    var before := ContextOf(db, run);
    var more := map n | n in ProjectNodes(db.nodes, db.runs[run].project) && n != task && n !in before :: Jev;
    moves := ChangeTells(db, run, before + more, ContextExpanded);
  }

  lemma FinishTells(db: Db, run: RunId, d: EventData, status: Status, code: Option<ErrorCode>)
    requires AppendEvent(db, run, d).Ok?
    ensures run in AppendEvent(db, run, d).value.runs
    ensures History(Finish(AppendEvent(db, run, d).value, run, status, code), run) == History(db, run) + [d]
  {
    AppendTells(db, run, d);
  }

  lemma FailTells(db: Db, run: RunId, evidence: Option<EventData>, code: ErrorCode, message: string)
    requires FailWith(db, run, evidence, code, message).Ok?
    ensures History(FailWith(db, run, evidence, code, message).value, run)
      == History(db, run) + (if evidence.Some? then [evidence.value] else []) + [RunFailed(code, message)]
  {
    if evidence.None? {
      FinishTells(db, run, RunFailed(code, message), Failed, Some(code));
      assert History(db, run) + [] == History(db, run);
    } else {
      AppendTells(db, run, evidence.value);
      FinishTells(AppendEvent(db, run, evidence.value).value, run, RunFailed(code, message), Failed, Some(code));
    }
  }

  // ---- Replies ----

  /** The announcements of a reply's nodes, in order. */
  function NodeEvents(emissions: seq<Emission>, ids: seq<nat>): seq<EventData>
    requires |ids| == |emissions|
  {
    if emissions == [] then []
    else
      var k := |emissions| - 1;
      NodeEvents(emissions[..k], ids[..k])
      + match emissions[k] case EmitEdge(_, _, _) => [] case EmitNode(ref, nodeType, _) => [DagNodeCreated(ids[k], nodeType, ref)]
  }

  /** And of its edges, between the nodes meant. */
  function EdgeEvents(emissions: seq<Emission>, created: map<string, NodeId>, ids: seq<nat>): seq<EventData>
    requires |ids| == |emissions| && EndpointsResolve(created.Keys, emissions)
  {
    if emissions == [] then []
    else
      var k := |emissions| - 1;
      assert emissions[k] in emissions;
      EdgeEvents(emissions[..k], created, ids[..k])
      + match emissions[k]
        case EmitNode(_, _, _) => []
        case EmitEdge(from, to, edgeType) => [DagEdgeCreated(ids[k], Resolve(created, from), Resolve(created, to), edgeType)]
  }

  lemma InsertNodeTells(db: Db, run: RunId, id: NodeId, nodeType: NodeType, payload: Payload, ref: string, now: Instant)
    requires run in db.runs && AnnounceNode(db, run, id, nodeType, payload, ref, now).Ok?
    ensures History(AnnounceNode(db, run, id, nodeType, payload, ref, now).value, run) == History(db, run) + [DagNodeCreated(id, nodeType, ref)]
  {
    AppendTells(InsertNode(db, db.runs[run].project, id, nodeType, payload, now).value, run, DagNodeCreated(id, nodeType, ref));
  }

  lemma InsertEdgeTells(db: Db, run: RunId, id: EdgeId, from: NodeId, to: NodeId, edgeType: EdgeType)
    requires run in db.runs && AnnounceEdge(db, run, id, from, to, edgeType).Ok?
    ensures History(AnnounceEdge(db, run, id, from, to, edgeType).value, run) == History(db, run) + [DagEdgeCreated(id, from, to, edgeType)]
  {
    AppendTells(InsertEdge(db, db.runs[run].project, id, from, to, edgeType).value, run, DagEdgeCreated(id, from, to, edgeType));
  }

  lemma {:induction false} NodesTell(db: Db, run: RunId, emissions: seq<Emission>, ids: seq<nat>, now: Instant)
    requires run in db.runs && |ids| == |emissions| && CreateNodes(db, run, emissions, ids, now).Ok?
    ensures History(CreateNodes(db, run, emissions, ids, now).value.0, run) == History(db, run) + NodeEvents(emissions, ids)
    decreases |emissions|
  {
    if emissions == [] {
      assert History(db, run) + [] == History(db, run);
    } else {
      var k := |emissions| - 1;
      var rest := CreateNodes(db, run, emissions[..k], ids[..k], now).value.0;
      NodesTell(db, run, emissions[..k], ids[..k], now);
      match emissions[k] {
        case EmitEdge(_, _, _) => AddNothing(History(db, run), NodeEvents(emissions[..k], ids[..k]));
        case EmitNode(ref, nodeType, payload) =>
          InsertNodeTells(rest, run, ids[k], nodeType, payload, ref, now);
          Regroup(History(db, run), NodeEvents(emissions[..k], ids[..k]), [DagNodeCreated(ids[k], nodeType, ref)]);
      }
    }
  }

  lemma {:induction false} EdgesTell(db: Db, run: RunId, emissions: seq<Emission>, created: map<string, NodeId>, ids: seq<nat>)
    requires run in db.runs && |ids| == |emissions| && EndpointsResolve(created.Keys, emissions)
    requires CreateEdges(db, run, emissions, created, ids).Ok?
    ensures History(CreateEdges(db, run, emissions, created, ids).value, run) == History(db, run) + EdgeEvents(emissions, created, ids)
    decreases |emissions|
  {
    if emissions == [] {
      assert History(db, run) + [] == History(db, run);
    } else {
      var k := |emissions| - 1;
      assert emissions[k] in emissions;
      var rest := CreateEdges(db, run, emissions[..k], created, ids[..k]).value;
      EdgesTell(db, run, emissions[..k], created, ids[..k]);
      match emissions[k] {
        case EmitNode(_, _, _) => AddNothing(History(db, run), EdgeEvents(emissions[..k], created, ids[..k]));
        case EmitEdge(from, to, edgeType) =>
          InsertEdgeTells(rest, run, ids[k], Resolve(created, from), Resolve(created, to), edgeType);
          Regroup(History(db, run), EdgeEvents(emissions[..k], created, ids[..k]),
                  [DagEdgeCreated(ids[k], Resolve(created, from), Resolve(created, to), edgeType)]);
      }
    }
  }

  lemma {:induction false} NodesGetIds(db: Db, run: RunId, emissions: seq<Emission>, ids: seq<nat>, now: Instant)
    requires run in db.runs && |ids| == |emissions| && CreateNodes(db, run, emissions, ids, now).Ok?
    ensures CreateNodes(db, run, emissions, ids, now).value.1 == CreatedBy(emissions, ids)
    decreases |emissions|
  {
    if emissions != [] {
      var k := |emissions| - 1;
      NodesGetIds(db, run, emissions[..k], ids[..k], now);
    }
  }

  /** A reply: its record, its nodes, its edges. */
  function ReplyEvents(response: Response, ids: seq<nat>): seq<EventData>
    requires |ids| == |response.emissions| && EndpointsResolve(RefsOf(response.emissions), response.emissions)
  {
    [ResponseValidated(response)]
    + (NodeEvents(response.emissions, ids) + EdgeEvents(response.emissions, CreatedBy(response.emissions, ids), ids))
  }

  lemma ReplyTells(db: Db, run: RunId, response: Response, ids: seq<nat>, now: Instant)
    requires |ids| == |response.emissions| && EndpointsResolve(RefsOf(response.emissions), response.emissions)
    requires ApplyResponse(db, run, response, ids, now).Ok?
    ensures History(ApplyResponse(db, run, response, ids, now).value, run) == History(db, run) + ReplyEvents(response, ids)
  {
    var e, created := response.emissions, CreatedBy(response.emissions, ids);
    var recorded := AppendEvent(db, run, ResponseValidated(response)).value;
    AppendTells(db, run, ResponseValidated(response));
    NodesTell(recorded, run, e, ids, now);
    NodesGetIds(recorded, run, e, ids, now);
    EdgesTell(CreateNodes(recorded, run, e, ids, now).value.0, run, e, created, ids);
    Regroup(History(db, run) + [ResponseValidated(response)], NodeEvents(e, ids), EdgeEvents(e, created, ids));
    Regroup(History(db, run), [ResponseValidated(response)], NodeEvents(e, ids) + EdgeEvents(e, created, ids));
  }

  // ---- Findings ----

  /** The announcements of the findings a project did not have. */
  function FindingEvents(db: Db, project: ProjectId, findings: seq<Finding>, ids: seq<nat>, refs: seq<string>): seq<EventData>
    requires |ids| == |findings| == |refs|
  {
    if findings == [] then []
    else
      var k := |findings| - 1;
      FindingEvents(db, project, findings[..k], ids[..k], refs[..k])
      + if AlreadyFound(db, project, findings[k]) then [] else [DagNodeCreated(ids[k], ObservationNode, refs[k])]
  }

  lemma {:induction false} FindingsTell(db: Db, run: RunId, findings: seq<Finding>, ids: seq<nat>, refs: seq<string>, now: Instant)
    requires run in db.runs && |ids| == |findings| == |refs| && RecordFindings(db, run, findings, ids, refs, now).Ok?
    ensures History(RecordFindings(db, run, findings, ids, refs, now).value, run)
      == History(db, run) + FindingEvents(db, db.runs[run].project, findings, ids, refs)
    decreases |findings|
  {
    var project := db.runs[run].project;
    if findings == [] {
      assert History(db, run) + [] == History(db, run);
    } else {
      var k := |findings| - 1;
      var rest := RecordFindings(db, run, findings[..k], ids[..k], refs[..k], now).value;
      var before := FindingEvents(db, project, findings[..k], ids[..k], refs[..k]);
      FindingsTell(db, run, findings[..k], ids[..k], refs[..k], now);
      if AlreadyFound(db, project, findings[k]) {
        AddNothing(History(db, run), before);
      } else {
        InsertNodeTells(rest, run, ids[k], ObservationNode, LintFinding(findings[k].rule, findings[k].file, findings[k].functionName), refs[k], now);
        Regroup(History(db, run), before, [DagNodeCreated(ids[k], ObservationNode, refs[k])]);
      }
    }
  }
}
