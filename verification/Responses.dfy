/** Validating a response against the IR it answers, and applying what was validated. */
module Responses {
  import opened Common
  import opened Graph
  import opened Records
  import opened Database
  import opened Invariants
  import opened ContextSteps
  import opened Frames
  import opened EdgeBatches

  datatype ResponseError = DuplicateRef(ref: string) | UnknownEndpoint(endpoint: Endpoint)

  // ---- What validation means ----

  predicate UniqueRefs(emissions: seq<Emission>) {
    forall i, j | 0 <= i < j < |emissions| && emissions[i].EmitNode? && emissions[j].EmitNode? :: emissions[i].ref != emissions[j].ref
  }

  /** The nodes an IR shows. */
  function Visible(ir: Ir): set<NodeId> { (set c | c in ir.context :: c.node) + {ir.task} }

  predicate Known(refs: set<string>, visible: set<NodeId>, endpoint: Endpoint) {
    match endpoint case Ref(name) => name in refs case Existing(node) => node in visible
  }

  predicate KnownEnds(refs: set<string>, visible: set<NodeId>, e: Emission) {
    e.EmitEdge? ==> Known(refs, visible, e.from) && Known(refs, visible, e.to)
  }

  predicate EndpointsKnown(refs: set<string>, visible: set<NodeId>, emissions: seq<Emission>) {
    forall i | 0 <= i < |emissions| :: KnownEnds(refs, visible, emissions[i])
  }

  predicate ValidResponse(response: Response, ir: Ir) {
    UniqueRefs(response.emissions) && EndpointsKnown(RefsOf(response.emissions), Visible(ir), response.emissions)
  }

  /** The first node emission whose ref was declared before. */
  predicate FirstRepeat(emissions: seq<Emission>, j: nat, name: string) {
    j < |emissions| && emissions[j].EmitNode? && emissions[j].ref == name
    && name in RefsOf(emissions[..j]) && UniqueRefs(emissions[..j])
  }

  /** The first edge emission with an unknown endpoint. */
  predicate FirstUnknown(emissions: seq<Emission>, refs: set<string>, visible: set<NodeId>, k: nat, endpoint: Endpoint) {
    k < |emissions| && emissions[k].EmitEdge? && !Known(refs, visible, endpoint) && EndpointsKnown(refs, visible, emissions[..k])
    && (endpoint == emissions[k].from || (endpoint == emissions[k].to && Known(refs, visible, emissions[k].from)))
  }

  /** Validates a response as the runtime does: refs first, then endpoints, stopping at the first
      violation. It is accepted exactly when it is valid. */
  method ValidateResponse(response: Response, ir: Ir) returns (r: Result<(), ResponseError>)
    ensures r.Ok? <==> ValidResponse(response, ir)
    ensures r.Err? && r.error.DuplicateRef? ==> exists j :: FirstRepeat(response.emissions, j, r.error.ref)
    ensures r.Err? && r.error.UnknownEndpoint? ==> UniqueRefs(response.emissions)
    ensures r.Err? && r.error.UnknownEndpoint? ==>
      exists k :: FirstUnknown(response.emissions, RefsOf(response.emissions), Visible(ir), k, r.error.endpoint)
  {
    var emissions := response.emissions;
    var refs: set<string> := {};
    for i := 0 to |emissions|
      invariant refs == RefsOf(emissions[..i]) && UniqueRefs(emissions[..i])
    {
      assert emissions[..i + 1] == emissions[..i] + [emissions[i]];
      if emissions[i].EmitNode? {
        if emissions[i].ref in refs {
          var e :| e in emissions[..i] && e.EmitNode? && e.ref == emissions[i].ref;
          ghost var k :| 0 <= k < i && emissions[k] == e;
          assert FirstRepeat(emissions, i, emissions[i].ref);
          return Err(DuplicateRef(emissions[i].ref));
        }
        refs := refs + {emissions[i].ref};
      }
      RefsAppend(emissions[..i], emissions[i]);
    }
    assert emissions[..|emissions|] == emissions;
    var visible := (set c | c in ir.context :: c.node) + {ir.task};
    for i := 0 to |emissions|
      invariant EndpointsKnown(refs, visible, emissions[..i])
    {
      if emissions[i].EmitEdge? {
        if !Known(refs, visible, emissions[i].from) {
          assert FirstUnknown(emissions, refs, visible, i, emissions[i].from);
          return Err(UnknownEndpoint(emissions[i].from));
        }
        if !Known(refs, visible, emissions[i].to) {
          assert FirstUnknown(emissions, refs, visible, i, emissions[i].to);
          return Err(UnknownEndpoint(emissions[i].to));
        }
      }
      assert emissions[..i + 1] == emissions[..i] + [emissions[i]];
    }
    return Ok(());
  }

  lemma RefsAppend(emissions: seq<Emission>, e: Emission)
    ensures RefsOf(emissions + [e]) == RefsOf(emissions) + (if e.EmitNode? then {e.ref} else {})
    ensures UniqueRefs(emissions) && (e.EmitNode? ==> e.ref !in RefsOf(emissions)) ==> UniqueRefs(emissions + [e])
  {
    var more := emissions + [e];
    forall x ensures x in RefsOf(more) <==> x in RefsOf(emissions) + (if e.EmitNode? then {e.ref} else {}) {
      if x in RefsOf(emissions) {
        var y :| y in emissions && y.EmitNode? && y.ref == x;
        assert y in more;
      }
      if e.EmitNode? && x == e.ref {
        assert e in more;
      }
    }
    if UniqueRefs(emissions) && (e.EmitNode? ==> e.ref !in RefsOf(emissions)) {
      forall i, j | 0 <= i < j < |more| && more[i].EmitNode? && more[j].EmitNode? ensures more[i].ref != more[j].ref {
        if j == |emissions| {
          assert emissions[i] in emissions;
        }
      }
    }
  }

  // ---- Nodes of a response ----

  /** The node each ref names once the response's nodes exist. */
  function CreatedBy(emissions: seq<Emission>, ids: seq<nat>): (m: map<string, NodeId>)
    requires |ids| == |emissions|
    ensures m.Keys == RefsOf(emissions)
  {
    if emissions == [] then map[]
    else
      var k := |emissions| - 1;
      assert emissions == emissions[..k] + [emissions[k]];
      var m := CreatedBy(emissions[..k], ids[..k]);
      RefsAppend(emissions[..k], emissions[k]);
      if emissions[k].EmitNode? then m[emissions[k].ref := ids[k]] else m
  }

  predicate NodeIdsFree(nodes: map<NodeId, Node>, emissions: seq<Emission>, ids: seq<nat>)
    requires |ids| == |emissions|
  {
    (forall i | 0 <= i < |ids| && emissions[i].EmitNode? :: ids[i] !in nodes)
    && forall i, j | 0 <= i < j < |ids| && emissions[i].EmitNode? && emissions[j].EmitNode? :: ids[i] != ids[j]
  }

  predicate CreatedInProject(nodes: map<NodeId, Node>, project: ProjectId, created: map<string, NodeId>) {
    forall name | name in created :: NodeInProject(nodes, project, created[name])
  }

  lemma CreatedGrow(nodes: map<NodeId, Node>, more: map<NodeId, Node>, project: ProjectId, created: map<string, NodeId>)
    requires NodesGrow(nodes, more) && CreatedInProject(nodes, project, created)
    ensures CreatedInProject(more, project, created)
  {
  }

  lemma AnnounceKeepsInv(db: Db, run: RunId, id: NodeId, nodeType: NodeType, payload: Payload, ref: string, now: Instant, db': Db)
    requires Inv(db) && IsRunning(db, run) && AnnounceNode(db, run, id, nodeType, payload, ref, now) == Ok(db')
    ensures Inv(db') && IsRunning(db', run)
  {
    assert RunOk(db, run);
    AnnouncesNode(db, run, id, nodeType, payload, ref, now);
    NodeKeepsInv(db, run, id, nodeType, payload, ref, now);
  }

  ghost predicate GoodRunning(db: Db, run: RunId) { Inv(db) && IsRunning(db, run) }

  lemma {:induction false} CreateNodesKeepsInv(db: Db, run: RunId, emissions: seq<Emission>, ids: seq<nat>, now: Instant,
                                               r: Result<(Db, map<string, NodeId>), StoreError>)
    requires GoodRunning(db, run) && |ids| == |emissions| && r == CreateNodes(db, run, emissions, ids, now) && r.Ok?
    ensures GoodRunning(r.value.0, run)
    decreases |emissions|
  {
    if emissions != [] {
      var k := |emissions| - 1;
      var rest := CreateNodes(db, run, emissions[..k], ids[..k], now);
      CreateNodesKeepsInv(db, run, emissions[..k], ids[..k], now, rest);
      if emissions[k].EmitNode? {
        var e := emissions[k];
        AnnounceKeepsInv(rest.value.0, run, ids[k], e.nodeType, e.payload, e.ref, now, r.value.0);
      } else {
        assert r == rest;
      }
    } else {
      assert r.value.0 == db;
    }
  }

  /** What the node phase of a response leaves behind. */
  predicate NodesCreated(db: Db, run: RunId, created: map<string, NodeId>, db': Db) {
    Extends(db, db', run) && db'.edges == db.edges && db'.projects == db.projects && db'.runs == db.runs && run in db.runs
    && CreatedInProject(db'.nodes, db.runs[run].project, created)
  }

  lemma AnnouncedNodeCreated(db: Db, run: RunId, created: map<string, NodeId>, mid: Db, id: NodeId, nodeType: NodeType,
                             payload: Payload, ref: string, now: Instant, db': Db)
    requires NodesCreated(db, run, created, mid) && AnnounceNode(mid, run, id, nodeType, payload, ref, now) == Ok(db')
    ensures NodesCreated(db, run, created[ref := id], db')
  {
    NodeExtends(mid, run, id, nodeType, payload, ref, now);
    ExtendsTrans(db, mid, db', run);
    CreatedGrow(mid.nodes, db'.nodes, db.runs[run].project, created);
  }

  lemma {:induction false} CreateNodesExtends(db: Db, run: RunId, emissions: seq<Emission>, ids: seq<nat>, now: Instant)
    requires run in db.runs && |ids| == |emissions|
    ensures var r := CreateNodes(db, run, emissions, ids, now);
      r.Ok? ==> r.value.1 == CreatedBy(emissions, ids) && NodesCreated(db, run, r.value.1, r.value.0)
    decreases |emissions|
  {
    if emissions == [] {
      ExtendsSelf(db, run);
    } else {
      var k := |emissions| - 1;
      CreateNodesExtends(db, run, emissions[..k], ids[..k], now);
      var rest := CreateNodes(db, run, emissions[..k], ids[..k], now);
      if rest.Ok? && emissions[k].EmitNode? {
        var e := emissions[k];
        var created := AnnounceNode(rest.value.0, run, ids[k], e.nodeType, e.payload, e.ref, now);
        if created.Ok? {
          AnnouncedNodeCreated(db, run, rest.value.1, rest.value.0, ids[k], e.nodeType, e.payload, e.ref, now, created.value);
        }
      }
    }
  }

  lemma {:induction false} CreateNodesSucceeds(db: Db, run: RunId, emissions: seq<Emission>, ids: seq<nat>, now: Instant)
    requires IsRunning(db, run) && db.runs[run].project in db.projects && |ids| == |emissions|
    requires NodeIdsFree(db.nodes, emissions, ids)
    ensures var r := CreateNodes(db, run, emissions, ids, now);
      r.Ok? && IsRunning(r.value.0, run) && r.value.0.projects == db.projects && r.value.0.runs == db.runs
      && forall n | n in r.value.0.nodes :: n in db.nodes || exists i :: 0 <= i < |ids| && emissions[i].EmitNode? && ids[i] == n
    decreases |emissions|
  {
    if emissions != [] {
      var k := |emissions| - 1;
      assert NodeIdsFree(db.nodes, emissions[..k], ids[..k]);
      CreateNodesSucceeds(db, run, emissions[..k], ids[..k], now);
      var rest := CreateNodes(db, run, emissions[..k], ids[..k], now).value.0;
      forall n | n in rest.nodes ensures n in db.nodes || exists i :: 0 <= i < k && emissions[i].EmitNode? && ids[i] == n {
        if n !in db.nodes {
          var i :| 0 <= i < |ids[..k]| && emissions[..k][i].EmitNode? && ids[..k][i] == n;
          assert emissions[i].EmitNode? && ids[i] == n;
        }
      }
    }
  }

  /** The ids given to the nodes a response emits. */
  function EmittedIds(emissions: seq<Emission>, ids: seq<nat>): set<NodeId>
    requires |ids| == |emissions|
  {
    set i | 0 <= i < |emissions| && emissions[i].EmitNode? :: ids[i]
  }

  /** The old nodes, and each emitted node under its own id, as it was emitted. */
  predicate AddsEmitted(nodes: map<NodeId, Node>, project: ProjectId, emissions: seq<Emission>, ids: seq<nat>, now: Instant,
                        after: map<NodeId, Node>)
    requires |ids| == |emissions|
  {
    after.Keys == nodes.Keys + EmittedIds(emissions, ids) && (forall n | n in nodes :: n in after && after[n] == nodes[n])
    && NodeIdsFree(nodes, emissions, ids)
    && forall i | 0 <= i < |emissions| && emissions[i].EmitNode? ::
         ids[i] in after && after[ids[i]] == Node(project, emissions[i].nodeType, emissions[i].payload, now)
  }

  lemma EmittedIdsAppend(emissions: seq<Emission>, ids: seq<nat>)
    requires |ids| == |emissions| > 0
    ensures var k := |emissions| - 1;
      EmittedIds(emissions, ids) == EmittedIds(emissions[..k], ids[..k]) + if emissions[k].EmitNode? then {ids[k]} else {}
  {
    var k := |emissions| - 1;
    forall n | n in EmittedIds(emissions[..k], ids[..k]) ensures n in EmittedIds(emissions, ids) {
      var i :| 0 <= i < k && emissions[..k][i].EmitNode? && ids[..k][i] == n;
      assert emissions[i] == emissions[..k][i] && ids[i] == n;
    }
    forall n | n in EmittedIds(emissions, ids) && !(emissions[k].EmitNode? && n == ids[k])
      ensures n in EmittedIds(emissions[..k], ids[..k])
    {
      var i :| 0 <= i < |emissions| && emissions[i].EmitNode? && ids[i] == n;
      assert i < k && emissions[..k][i] == emissions[i] && ids[..k][i] == n;
    }
  }

  lemma AddsOneEmitted(nodes: map<NodeId, Node>, project: ProjectId, emissions: seq<Emission>, ids: seq<nat>, now: Instant,
                       rest: map<NodeId, Node>, after: map<NodeId, Node>)
    requires |ids| == |emissions| > 0
    requires var k := |emissions| - 1;
      AddsEmitted(nodes, project, emissions[..k], ids[..k], now, rest)
      && if emissions[k].EmitNode?
         then ids[k] !in rest && after == rest[ids[k] := Node(project, emissions[k].nodeType, emissions[k].payload, now)]
         else after == rest
    ensures AddsEmitted(nodes, project, emissions, ids, now, after)
  {
    var k := |emissions| - 1;
    EmittedIdsAppend(emissions, ids);
    forall i | 0 <= i < k ensures emissions[..k][i] == emissions[i] && ids[..k][i] == ids[i] {}
    forall i | 0 <= i < k && emissions[i].EmitNode? ensures ids[i] in rest && ids[i] !in nodes {
      assert emissions[..k][i].EmitNode? && ids[..k][i] == ids[i];
    }
  }

  lemma {:induction false} CreatesEachNode(db: Db, run: RunId, emissions: seq<Emission>, ids: seq<nat>, now: Instant)
    requires run in db.runs && |ids| == |emissions| && CreateNodes(db, run, emissions, ids, now).Ok?
    ensures var after := CreateNodes(db, run, emissions, ids, now).value.0;
      after.runs == db.runs && AddsEmitted(db.nodes, db.runs[run].project, emissions, ids, now, after.nodes)
    decreases |emissions|
  {
    if emissions != [] {
      var k := |emissions| - 1;
      var rest := CreateNodes(db, run, emissions[..k], ids[..k], now).value.0;
      CreatesEachNode(db, run, emissions[..k], ids[..k], now);
      AddsOneEmitted(db.nodes, db.runs[run].project, emissions, ids, now, rest.nodes, CreateNodes(db, run, emissions, ids, now).value.0.nodes);
    }
  }

  // ---- Edges of a response ----

  /** The edges of a response, their endpoints resolved, in order of emission. */
  function Batch(emissions: seq<Emission>, created: map<string, NodeId>, ids: seq<nat>): seq<NewEdge>
    requires |ids| == |emissions| && EndpointsResolve(created.Keys, emissions)
  {
    if emissions == [] then []
    else
      var k := |emissions| - 1;
      var rest := Batch(emissions[..k], created, ids[..k]);
      var e := emissions[k];
      if e.EmitNode? then rest
      else
        assert e in emissions;
        rest + [NewEdge(ids[k], Resolve(created, e.from), Resolve(created, e.to), e.edgeType)]
  }

  /** Whether two versions of the tables hold the same graph. */
  predicate SameGraph(a: Db, b: Db) { a.nodes == b.nodes && a.edges == b.edges && a.projects == b.projects }

  lemma InsertEdgeSame(a: Db, b: Db, project: ProjectId, id: EdgeId, from: NodeId, to: NodeId, edgeType: EdgeType)
    requires SameGraph(a, b)
    ensures InsertEdge(a, project, id, from, to, edgeType).Ok? <==> InsertEdge(b, project, id, from, to, edgeType).Ok?
    ensures InsertEdge(a, project, id, from, to, edgeType).Err? ==>
      InsertEdge(a, project, id, from, to, edgeType).error == InsertEdge(b, project, id, from, to, edgeType).error
    ensures InsertEdge(a, project, id, from, to, edgeType).Ok? ==>
      SameGraph(InsertEdge(a, project, id, from, to, edgeType).value, InsertEdge(b, project, id, from, to, edgeType).value)
  {
  }

  /** Announcing edges does not change which are accepted. */
  lemma {:induction false} EdgePhase(db: Db, run: RunId, emissions: seq<Emission>, created: map<string, NodeId>, ids: seq<nat>)
    requires IsRunning(db, run) && |ids| == |emissions| && EndpointsResolve(created.Keys, emissions)
    ensures var r := CreateEdges(db, run, emissions, created, ids);
      var s := InsertEdges(db, db.runs[run].project, Batch(emissions, created, ids));
      (r.Ok? <==> s.Ok?) && (r.Err? ==> r.error == s.error)
      && (r.Ok? ==> SameGraph(r.value, s.value) && Extends(db, r.value, run) && IsRunning(r.value, run) && r.value.runs == db.runs)
    decreases |emissions|
  {
    if emissions == [] {
      ExtendsSelf(db, run);
    } else {
      var k := |emissions| - 1;
      var project := db.runs[run].project;
      EdgePhase(db, run, emissions[..k], created, ids[..k]);
      var r, s := CreateEdges(db, run, emissions[..k], created, ids[..k]), InsertEdges(db, project, Batch(emissions[..k], created, ids[..k]));
      var e := emissions[k];
      if e.EmitEdge? {
        assert e in emissions;
        var (from, to) := (Resolve(created, e.from), Resolve(created, e.to));
        var rest := Batch(emissions[..k], created, ids[..k]);
        assert (rest + [NewEdge(ids[k], from, to, e.edgeType)])[..|rest|] == rest;
        if r.Ok? {
          InsertEdgeSame(r.value, s.value, project, ids[k], from, to, e.edgeType);
          AnnounceIsInsert(r.value, run, ids[k], from, to, e.edgeType);
          var last := AnnounceEdge(r.value, run, ids[k], from, to, e.edgeType);
          if last.Ok? {
            ExtendsTrans(db, r.value, last.value, run);
          }
        }
      }
    }
  }

  lemma AnnounceIsInsert(db: Db, run: RunId, id: EdgeId, from: NodeId, to: NodeId, edgeType: EdgeType)
    requires IsRunning(db, run)
    ensures var r := AnnounceEdge(db, run, id, from, to, edgeType); var s := InsertEdge(db, db.runs[run].project, id, from, to, edgeType);
      (r.Ok? <==> s.Ok?) && (r.Err? ==> r.error == s.error)
      && (r.Ok? ==> SameGraph(r.value, s.value) && Extends(db, r.value, run) && IsRunning(r.value, run))
  {
    if AnnounceEdge(db, run, id, from, to, edgeType).Ok? {
      EdgeExtends(db, run, id, from, to, edgeType);
    }
  }

  lemma AnnounceEdgeKeepsInv(db: Db, run: RunId, id: EdgeId, from: NodeId, to: NodeId, edgeType: EdgeType, db': Db)
    requires GoodRunning(db, run) && AnnounceEdge(db, run, id, from, to, edgeType) == Ok(db')
    ensures GoodRunning(db', run)
  {
    assert RunOk(db, run);
    AnnouncesEdge(db, run, id, from, to, edgeType);
    EdgeKeepsInv(db, run, id, from, to, edgeType);
  }

  lemma {:induction false} CreateEdgesKeepsInv(db: Db, run: RunId, emissions: seq<Emission>, created: map<string, NodeId>,
                                               ids: seq<nat>, db': Db)
    requires GoodRunning(db, run) && |ids| == |emissions| && EndpointsResolve(created.Keys, emissions)
    requires CreateEdges(db, run, emissions, created, ids) == Ok(db')
    ensures GoodRunning(db', run)
    decreases |emissions|
  {
    if emissions == [] {
      assert db' == db;
    } else {
      var k := |emissions| - 1;
      var rest := CreateEdges(db, run, emissions[..k], created, ids[..k]);
      CreateEdgesKeepsInv(db, run, emissions[..k], created, ids[..k], rest.value);
      var e := emissions[k];
      if e.EmitEdge? {
        assert e in emissions;
        AnnounceEdgeKeepsInv(rest.value, run, ids[k], Resolve(created, e.from), Resolve(created, e.to), e.edgeType, db');
      } else {
        assert db' == rest.value;
      }
    }
  }

  // ---- Main results ----

  lemma ApplyKeepsInv(db: Db, run: RunId, response: Response, ids: seq<nat>, now: Instant, db': Db)
    requires GoodRunning(db, run) && |ids| == |response.emissions|
    requires EndpointsResolve(RefsOf(response.emissions), response.emissions)
    requires ApplyResponse(db, run, response, ids, now) == Ok(db')
    ensures GoodRunning(db', run) && Extends(db, db', run)
  {
    assert RunOk(db, run);
    var d := ResponseValidated(response);
    AppendKeepsInv(db, run, d);
    AppendExtends(db, run, d);
    var db1 := AppendEvent(db, run, d).value;
    var nodes := CreateNodes(db1, run, response.emissions, ids, now);
    CreateNodesKeepsInv(db1, run, response.emissions, ids, now, nodes);
    CreateNodesExtends(db1, run, response.emissions, ids, now);
    var (db2, created) := nodes.value;
    CreateEdgesKeepsInv(db2, run, response.emissions, created, ids, db');
    EdgePhase(db2, run, response.emissions, created, ids);
    ExtendsTrans(db, db1, db2, run);
    ExtendsTrans(db, db2, db', run);
  }

  lemma {:induction false} EdgesLeaveNodes(db: Db, run: RunId, emissions: seq<Emission>, created: map<string, NodeId>, ids: seq<nat>)
    requires run in db.runs && |ids| == |emissions| && EndpointsResolve(created.Keys, emissions)
    ensures var r := CreateEdges(db, run, emissions, created, ids); r.Ok? ==> r.value.nodes == db.nodes
    decreases |emissions|
  {
    if emissions != [] {
      EdgesLeaveNodes(db, run, emissions[..|emissions| - 1], created, ids[..|emissions| - 1]);
    }
  }

  /** An applied reply adds exactly the nodes it emits, each under its id, with the type and payload it was emitted
      with, in the run's project; the nodes there were stay as they were. */
  lemma AddsWhatIsEmitted(db: Db, run: RunId, response: Response, ids: seq<nat>, now: Instant, db': Db)
    requires |ids| == |response.emissions| && EndpointsResolve(RefsOf(response.emissions), response.emissions)
    requires ApplyResponse(db, run, response, ids, now) == Ok(db')
    ensures run in db.runs && AddsEmitted(db.nodes, db.runs[run].project, response.emissions, ids, now, db'.nodes)
  {
    var recorded := AppendEvent(db, run, ResponseValidated(response)).value;
    CreatesEachNode(recorded, run, response.emissions, ids, now);
    var nodes := CreateNodes(recorded, run, response.emissions, ids, now).value;
    EdgesLeaveNodes(nodes.0, run, response.emissions, nodes.1, ids);
  }

  /** `n` is the node an endpoint means: the node itself, or the one emitted under that ref. */
  predicate Means(emissions: seq<Emission>, ids: seq<nat>, endpoint: Endpoint, n: NodeId)
    requires |ids| == |emissions|
  {
    match endpoint
    case Existing(node) => n == node
    case Ref(name) => exists i :: 0 <= i < |emissions| && emissions[i].EmitNode? && emissions[i].ref == name && ids[i] == n
  }

  lemma {:induction false} CreatedMeans(emissions: seq<Emission>, ids: seq<nat>, name: string)
    requires |ids| == |emissions| && name in CreatedBy(emissions, ids)
    ensures Means(emissions, ids, Ref(name), CreatedBy(emissions, ids)[name])
    decreases |emissions|
  {
    var k := |emissions| - 1;
    if emissions[k].EmitNode? && emissions[k].ref == name {
      assert CreatedBy(emissions, ids)[name] == ids[k];
    } else {
      CreatedMeans(emissions[..k], ids[..k], name);
      var i :| 0 <= i < k && emissions[..k][i].EmitNode? && emissions[..k][i].ref == name && ids[..k][i] == CreatedBy(emissions, ids)[name];
      assert emissions[i].EmitNode? && emissions[i].ref == name && ids[i] == CreatedBy(emissions, ids)[name];
    }
  }

  /** The row of the edge emission `e` under the id `id`. */
  predicate IsRow(project: ProjectId, created: map<string, NodeId>, e: Emission, id: EdgeId, row: Edge) {
    e.EmitEdge? && Resolvable(created.Keys, e.from) && Resolvable(created.Keys, e.to)
    && row == Edge(id, project, Resolve(created, e.from), Resolve(created, e.to), e.edgeType)
  }

  predicate HasRow(project: ProjectId, created: map<string, NodeId>, e: Emission, id: EdgeId, rows: seq<Edge>) {
    exists j :: 0 <= j < |rows| && IsRow(project, created, e, id, rows[j])
  }

  predicate RowOfSome(project: ProjectId, created: map<string, NodeId>, emissions: seq<Emission>, ids: seq<nat>, row: Edge)
    requires |ids| == |emissions|
  {
    exists i :: 0 <= i < |emissions| && IsRow(project, created, emissions[i], ids[i], row)
  }

  /** One row for each edge emission, and nothing else. */
  predicate RowsEmitted(project: ProjectId, created: map<string, NodeId>, emissions: seq<Emission>, ids: seq<nat>, rows: seq<Edge>)
    requires |ids| == |emissions|
  {
    (forall i | 0 <= i < |emissions| && emissions[i].EmitEdge? :: HasRow(project, created, emissions[i], ids[i], rows))
    && forall j | 0 <= j < |rows| :: RowOfSome(project, created, emissions, ids, rows[j])
  }

  lemma HasRowStill(project: ProjectId, created: map<string, NodeId>, e: Emission, id: EdgeId, rows: seq<Edge>, row: Edge)
    requires HasRow(project, created, e, id, rows)
    ensures HasRow(project, created, e, id, rows + [row])
  {
    var j :| 0 <= j < |rows| && IsRow(project, created, e, id, rows[j]);
    assert (rows + [row])[j] == rows[j];
  }

  lemma RowOfMore(project: ProjectId, created: map<string, NodeId>, emissions: seq<Emission>, ids: seq<nat>, row: Edge)
    requires |ids| == |emissions| > 0 && RowOfSome(project, created, emissions[..|emissions| - 1], ids[..|emissions| - 1], row)
    ensures RowOfSome(project, created, emissions, ids, row)
  {
    var k := |emissions| - 1;
    var i :| 0 <= i < k && IsRow(project, created, emissions[..k][i], ids[..k][i], row);
    assert IsRow(project, created, emissions[i], ids[i], row);
  }

  lemma NoRowEmitted(project: ProjectId, created: map<string, NodeId>, emissions: seq<Emission>, ids: seq<nat>, rows: seq<Edge>)
    requires |ids| == |emissions| > 0 && emissions[|emissions| - 1].EmitNode?
    requires RowsEmitted(project, created, emissions[..|emissions| - 1], ids[..|emissions| - 1], rows)
    ensures RowsEmitted(project, created, emissions, ids, rows)
  {
    var k := |emissions| - 1;
    forall i | 0 <= i < |emissions| && emissions[i].EmitEdge? ensures HasRow(project, created, emissions[i], ids[i], rows) {
      assert HasRow(project, created, emissions[..k][i], ids[..k][i], rows);
    }
    forall j | 0 <= j < |rows| ensures RowOfSome(project, created, emissions, ids, rows[j]) {
      RowOfMore(project, created, emissions, ids, rows[j]);
    }
  }

  lemma RowEmitted(project: ProjectId, created: map<string, NodeId>, emissions: seq<Emission>, ids: seq<nat>, rows: seq<Edge>, row: Edge)
    requires |ids| == |emissions| > 0
    requires RowsEmitted(project, created, emissions[..|emissions| - 1], ids[..|emissions| - 1], rows)
    requires IsRow(project, created, emissions[|emissions| - 1], ids[|emissions| - 1], row)
    ensures RowsEmitted(project, created, emissions, ids, rows + [row])
  {
    var k, more := |emissions| - 1, rows + [row];
    assert more[|rows|] == row;
    forall i | 0 <= i < |emissions| && emissions[i].EmitEdge? ensures HasRow(project, created, emissions[i], ids[i], more) {
      if i < k {
        assert HasRow(project, created, emissions[..k][i], ids[..k][i], rows);
        HasRowStill(project, created, emissions[i], ids[i], rows, row);
      }
    }
    forall j | 0 <= j < |more| ensures RowOfSome(project, created, emissions, ids, more[j]) {
      if j < |rows| {
        RowOfMore(project, created, emissions, ids, rows[j]);
      }
    }
  }

  lemma {:induction false} CreatesEachEdge(db: Db, run: RunId, emissions: seq<Emission>, created: map<string, NodeId>, ids: seq<nat>)
      returns (rows: seq<Edge>)
    requires run in db.runs && |ids| == |emissions| && EndpointsResolve(created.Keys, emissions)
    requires CreateEdges(db, run, emissions, created, ids).Ok?
    ensures CreateEdges(db, run, emissions, created, ids).value.edges == db.edges + rows
    ensures RowsEmitted(db.runs[run].project, created, emissions, ids, rows)
    decreases |emissions|
  {
    if emissions == [] {
      rows := [];
      assert db.edges + [] == db.edges;
    } else {
      var k, project := |emissions| - 1, db.runs[run].project;
      var e := emissions[k];
      assert e in emissions;
      var rest := CreatesEachEdge(db, run, emissions[..k], created, ids[..k]);
      if e.EmitNode? {
        NoRowEmitted(project, created, emissions, ids, rest);
        rows := rest;
      } else {
        var row := Edge(ids[k], project, Resolve(created, e.from), Resolve(created, e.to), e.edgeType);
        RowEmitted(project, created, emissions, ids, rest, row);
        rows := rest + [row];
        assert db.edges + rest + [row] == db.edges + rows;
      }
    }
  }

  lemma NodesLeaveEdges(db: Db, run: RunId, emissions: seq<Emission>, ids: seq<nat>, now: Instant)
    requires run in db.runs && |ids| == |emissions| && CreateNodes(db, run, emissions, ids, now).Ok?
    ensures var after := CreateNodes(db, run, emissions, ids, now).value;
      after.0.edges == db.edges && after.0.runs == db.runs && after.1 == CreatedBy(emissions, ids)
  {
    CreateNodesExtends(db, run, emissions, ids, now);
  }

  /** What an edge emission leaves: an edge of its type, from the node its one end means to the node its other. */
  predicate Joins(emissions: seq<Emission>, ids: seq<nat>, i: nat, project: ProjectId, row: Edge)
    requires |ids| == |emissions|
  {
    i < |emissions| && emissions[i].EmitEdge? && row.id == ids[i] && row.project == project && row.edgeType == emissions[i].edgeType
    && Means(emissions, ids, emissions[i].from, row.from) && Means(emissions, ids, emissions[i].to, row.to)
  }

  lemma RowJoins(emissions: seq<Emission>, ids: seq<nat>, i: nat, project: ProjectId, row: Edge)
    requires |ids| == |emissions| && i < |emissions| && IsRow(project, CreatedBy(emissions, ids), emissions[i], ids[i], row)
    ensures Joins(emissions, ids, i, project, row)
  {
    var e := emissions[i];
    if e.from.Ref? { CreatedMeans(emissions, ids, e.from.name); }
    if e.to.Ref? { CreatedMeans(emissions, ids, e.to.name); }
  }

  predicate HasEdge(emissions: seq<Emission>, ids: seq<nat>, i: nat, project: ProjectId, rows: seq<Edge>)
    requires |ids| == |emissions|
  {
    exists j :: 0 <= j < |rows| && Joins(emissions, ids, i, project, rows[j])
  }

  predicate EdgeOfSome(emissions: seq<Emission>, ids: seq<nat>, project: ProjectId, row: Edge)
    requires |ids| == |emissions|
  {
    exists i :: 0 <= i < |emissions| && Joins(emissions, ids, i, project, row)
  }

  /** The edges a reply emits: each of them, and no others. */
  predicate EdgesEmitted(emissions: seq<Emission>, ids: seq<nat>, project: ProjectId, rows: seq<Edge>)
    requires |ids| == |emissions|
  {
    (forall i | 0 <= i < |emissions| && emissions[i].EmitEdge? :: HasEdge(emissions, ids, i, project, rows))
    && forall j | 0 <= j < |rows| :: EdgeOfSome(emissions, ids, project, rows[j])
  }

  lemma RowsAreEdges(emissions: seq<Emission>, ids: seq<nat>, project: ProjectId, rows: seq<Edge>)
    requires |ids| == |emissions| && RowsEmitted(project, CreatedBy(emissions, ids), emissions, ids, rows)
    ensures EdgesEmitted(emissions, ids, project, rows)
  {
    forall i | 0 <= i < |emissions| && emissions[i].EmitEdge? ensures HasEdge(emissions, ids, i, project, rows) {
      assert HasRow(project, CreatedBy(emissions, ids), emissions[i], ids[i], rows);
      var j :| 0 <= j < |rows| && IsRow(project, CreatedBy(emissions, ids), emissions[i], ids[i], rows[j]);
      RowJoins(emissions, ids, i, project, rows[j]);
    }
    forall j | 0 <= j < |rows| ensures EdgeOfSome(emissions, ids, project, rows[j]) {
      assert RowOfSome(project, CreatedBy(emissions, ids), emissions, ids, rows[j]);
      var i :| 0 <= i < |emissions| && IsRow(project, CreatedBy(emissions, ids), emissions[i], ids[i], rows[j]);
      RowJoins(emissions, ids, i, project, rows[j]);
    }
  }

  /** And exactly the edges it emits, after those there were: each with its type, between the nodes it names. */
  lemma AddsEdgesEmitted(db: Db, run: RunId, response: Response, ids: seq<nat>, now: Instant, db': Db) returns (rows: seq<Edge>)
    requires |ids| == |response.emissions| && EndpointsResolve(RefsOf(response.emissions), response.emissions)
    requires ApplyResponse(db, run, response, ids, now) == Ok(db')
    ensures run in db.runs && db'.edges == db.edges + rows
    ensures EdgesEmitted(response.emissions, ids, db.runs[run].project, rows)
  {
    var recorded := AppendEvent(db, run, ResponseValidated(response)).value;
    NodesLeaveEdges(recorded, run, response.emissions, ids, now);
    var nodes := CreateNodes(recorded, run, response.emissions, ids, now).value;
    rows := CreatesEachEdge(nodes.0, run, response.emissions, nodes.1, ids);
    RowsAreEdges(response.emissions, ids, db.runs[run].project, rows);
  }
  /** The edges a response asks for. */
  function EdgesOf(response: Response, ids: seq<nat>): seq<NewEdge>
    requires |ids| == |response.emissions| && EndpointsResolve(RefsOf(response.emissions), response.emissions)
  {
    Batch(response.emissions, CreatedBy(response.emissions, ids), ids)
  }

  predicate EdgeIdsFree(edges: seq<Edge>, emissions: seq<Emission>, ids: seq<nat>)
    requires |ids| == |emissions|
  {
    (forall i, x | 0 <= i < |ids| && emissions[i].EmitEdge? && x in edges :: ids[i] != x.id)
    && forall i, j | 0 <= i < j < |ids| && emissions[i].EmitEdge? && emissions[j].EmitEdge? :: ids[i] != ids[j]
  }

  lemma {:induction false} BatchIds(edges: seq<Edge>, emissions: seq<Emission>, created: map<string, NodeId>, ids: seq<nat>)
    requires |ids| == |emissions| && EndpointsResolve(created.Keys, emissions) && EdgeIdsFree(edges, emissions, ids)
    ensures FreeIds(edges, Batch(emissions, created, ids))
    ensures forall b | b in Batch(emissions, created, ids) :: exists i :: 0 <= i < |ids| && emissions[i].EmitEdge? && b.id == ids[i]
    decreases |emissions|
  {
    if emissions != [] {
      var k := |emissions| - 1;
      assert EdgeIdsFree(edges, emissions[..k], ids[..k]);
      BatchIds(edges, emissions[..k], created, ids[..k]);
      var rest := Batch(emissions[..k], created, ids[..k]);
      forall b | b in rest ensures exists i :: 0 <= i < k && emissions[i].EmitEdge? && b.id == ids[i] {
        var i :| 0 <= i < |ids[..k]| && emissions[..k][i].EmitEdge? && b.id == ids[..k][i];
        assert emissions[i].EmitEdge? && b.id == ids[i];
      }
      var e := emissions[k];
      if e.EmitEdge? {
        assert e in emissions;
        IdsAppend(edges, rest, NewEdge(ids[k], Resolve(created, e.from), Resolve(created, e.to), e.edgeType));
      }
    }
  }

  /** Validated endpoints resolve to nodes of the project. */
  lemma {:induction false} BatchInProject(nodes: map<NodeId, Node>, project: ProjectId, emissions: seq<Emission>,
                                          created: map<string, NodeId>, ids: seq<nat>, visible: set<NodeId>)
    requires |ids| == |emissions| && EndpointsKnown(created.Keys, visible, emissions)
    requires CreatedInProject(nodes, project, created) && visible <= ProjectNodes(nodes, project)
    ensures EndpointsResolve(created.Keys, emissions)
    ensures EndpointsInProject(nodes, project, Batch(emissions, created, ids))
    decreases |emissions|
  {
    forall e | e in emissions && e.EmitEdge? ensures Resolvable(created.Keys, e.from) && Resolvable(created.Keys, e.to) {
      var i :| 0 <= i < |emissions| && emissions[i] == e;
      assert KnownEnds(created.Keys, visible, emissions[i]);
    }
    if emissions != [] {
      var k := |emissions| - 1;
      BatchInProject(nodes, project, emissions[..k], created, ids[..k], visible);
      assert KnownEnds(created.Keys, visible, emissions[k]);
    }
  }

  /** What refuses a batch whose endpoints are in the project and whose ids are free. */
  lemma {:induction false} RefusedAsViolation(db: Db, project: ProjectId, batch: seq<NewEdge>)
    requires project in db.projects && GraphOk(db.nodes, db.edges)
    requires EndpointsInProject(db.nodes, project, batch) && FreeIds(db.edges, batch)
    ensures var r := InsertEdges(db, project, batch);
      r.Err? ==> r.error.SelfLoop? || r.error.DuplicateEdge? || r.error.Cycle?
    decreases |batch|
  {
    if batch != [] {
      var init, e := batch[..|batch| - 1], batch[|batch| - 1];
      assert batch == init + [e];
      IdsAppend(db.edges, init, e);
      RefusedAsViolation(db, project, init);
      AcceptedIffAdmissible(db, project, init);
      if InsertEdges(db, project, init).Ok? {
        LastIdFree(db.edges, project, init, e);
      }
    }
  }

  lemma LastIdFree(edges: seq<Edge>, project: ProjectId, batch: seq<NewEdge>, e: NewEdge)
    requires (forall x | x in batch :: x.id != e.id) && (forall x | x in edges :: x.id != e.id)
    ensures forall x | x in edges + Rows(project, batch) :: x.id != e.id
  {
    forall x | x in edges + Rows(project, batch) ensures x.id != e.id {
      if x !in edges {
        var i :| 0 <= i < |batch| && Rows(project, batch)[i] == x;
        assert batch[i] in batch;
      }
    }
  }

  /** An IR compiled for the run, at any point of its history. */
  predicate CompiledFor(db: Db, run: RunId, ir: Ir) {
    var log := Log(db.events, run);
    Opened(log) && ir.task == TaskOf(log) && exists i :: 0 <= i < |log| && log[i].data == IrCompiled(ir)
  }

  /** Whatever an IR of the run showed is still in the project. */
  lemma VisibleInProject(db: Db, run: RunId, ir: Ir)
    requires run in db.runs && run in db.context && RunOk(db, run) && CompiledFor(db, run, ir)
    ensures Visible(ir) <= ProjectNodes(db.nodes, db.runs[run].project)
  {
    var log := Log(db.events, run);
    var i :| 0 <= i < |log| && log[i].data == IrCompiled(ir);
    forall n | n in Visible(ir) ensures n in ProjectNodes(db.nodes, db.runs[run].project) {
      if n != ir.task {
        var c :| c in ir.context && c.node == n;
        assert c in log[i].data.ir.context;
      }
    }
  }

  /** What an admissible batch comes down to once its endpoints resolve in the project and its ids
      are free. */
  ghost predicate Fits(edges: seq<Edge>, batch: seq<NewEdge>) {
    NoSelfLoop(batch) && DistinctTriples(batch) && FreshTriples(edges, batch) && Acyclic(ArrowsOf(edges) + BatchArrows(batch))
  }

  lemma EdgePhaseExactly(db: Db, run: RunId, emissions: seq<Emission>, created: map<string, NodeId>, ids: seq<nat>, visible: set<NodeId>)
    requires IsRunning(db, run) && db.runs[run].project in db.projects && GraphOk(db.nodes, db.edges)
    requires |ids| == |emissions| && EndpointsKnown(created.Keys, visible, emissions) && EdgeIdsFree(db.edges, emissions, ids)
    requires CreatedInProject(db.nodes, db.runs[run].project, created) && visible <= ProjectNodes(db.nodes, db.runs[run].project)
    ensures EndpointsResolve(created.Keys, emissions)
    ensures var r := CreateEdges(db, run, emissions, created, ids);
      (r.Ok? <==> Fits(db.edges, Batch(emissions, created, ids)))
      && (r.Err? ==> r.error.SelfLoop? || r.error.DuplicateEdge? || r.error.Cycle?)
  {
    var project := db.runs[run].project;
    BatchInProject(db.nodes, project, emissions, created, ids, visible);
    BatchIds(db.edges, emissions, created, ids);
    EdgePhase(db, run, emissions, created, ids);
    AcceptedIffAdmissible(db, project, Batch(emissions, created, ids));
    RefusedAsViolation(db, project, Batch(emissions, created, ids));
  }

  /** A response validated against an IR of a run still running is refused by the graph only as a
      self-loop, a duplicate or a cycle, and is accepted exactly when its edges, taken together, are
      loop-free, distinct, new and leave the graph acyclic. */
  lemma AcceptsExactly(db: Db, run: RunId, response: Response, ir: Ir, ids: seq<nat>, now: Instant)
    requires GoodRunning(db, run) && RunOk(db, run) && CompiledFor(db, run, ir) && ValidResponse(response, ir)
    requires |ids| == |response.emissions|
    requires NodeIdsFree(db.nodes, response.emissions, ids) && EdgeIdsFree(db.edges, response.emissions, ids)
    ensures EndpointsResolve(RefsOf(response.emissions), response.emissions)
    ensures ApplyResponse(db, run, response, ids, now).Ok? <==> Fits(db.edges, EdgesOf(response, ids))
    ensures var r := ApplyResponse(db, run, response, ids, now);
      r.Err? ==> r.error.SelfLoop? || r.error.DuplicateEdge? || r.error.Cycle?
  {
    var emissions := response.emissions;
    var d := ResponseValidated(response);
    AppendKeepsInv(db, run, d);
    var db1 := AppendEvent(db, run, d).value;
    ProjectExists(db, run);
    CreateNodesSucceeds(db1, run, emissions, ids, now);
    var nodes := CreateNodes(db1, run, emissions, ids, now);
    CreateNodesKeepsInv(db1, run, emissions, ids, now, nodes);
    CreateNodesExtends(db1, run, emissions, ids, now);
    VisibleInProject(db, run, ir);
    MoreProjectNodes(db.nodes, nodes.value.0.nodes, db.runs[run].project);
    EdgePhaseExactly(nodes.value.0, run, emissions, nodes.value.1, ids, Visible(ir));
  }

  lemma ProjectExists(db: Db, run: RunId)
    requires Domains(db) && run in db.runs
    ensures db.runs[run].project in db.projects
  {
    assert db.runs[run].conversation in db.conversations;
  }
}
