/** Compiling a run's state into the IR its model sees: the task, the active context with the
    relations inside it, the recent turns, and the tool results. */
module Compilation {
  import opened Common
  import opened Records
  import opened Database
  import opened Invariants
  import opened ContextSteps
  import opened Turns
  import opened ToolLog

  /** What was decided about history for one IR. */
  datatype History = History(window: nat, recalled: seq<RecalledTurn>, omitted: set<CallId>, review: Option<Review>)

  datatype CompileError = StoreFailed(error: StoreError) | InvalidTask(node: NodeId)

  function DataOf(log: seq<Event>): (data: seq<EventData>)
    ensures |data| == |log|
  {
    seq(|log|, i requires 0 <= i < |log| => log[i].data)
  }

  /** The relations of `from` to shown nodes, in order of creation. */
  function Relations(edges: seq<Edge>, project: ProjectId, from: NodeId, shown: set<NodeId>): seq<Relation> {
    if edges == [] then []
    else
      var rest := Relations(edges[..|edges| - 1], project, from, shown);
      var e := edges[|edges| - 1];
      if e.project == project && e.from == from && e.to in shown then rest + [Relation(e.edgeType, e.to)] else rest
  }

  function Item(db: Db, project: ProjectId, n: NodeId, shown: set<NodeId>): ContextItem
    requires n in db.nodes
  {
    ContextItem(n, db.nodes[n].nodeType, db.nodes[n].payload, Relations(db.edges, project, n, shown))
  }

  function Items(db: Db, project: ProjectId, members: seq<NodeId>, shown: set<NodeId>): (items: seq<ContextItem>)
    requires forall i | 0 <= i < |members| :: members[i] in db.nodes
    ensures |items| == |members|
  {
    seq(|members|, i requires 0 <= i < |members| => Item(db, project, members[i], shown))
  }

  predicate IsUserTurn(node: Node) { node.nodeType == ConversationNode && node.payload.UserTurn? }

  lemma RankedKnown(nodes: map<NodeId, Node>, members: set<NodeId>)
    requires members <= nodes.Keys
    ensures forall i | 0 <= i < |Ranked(nodes, members)| :: Ranked(nodes, members)[i] in nodes
  {
    RankedMembers(nodes, members);
    forall i | 0 <= i < |Ranked(nodes, members)| ensures Ranked(nodes, members)[i] in nodes {
      assert Ranked(nodes, members)[i] in Ranked(nodes, members);
    }
  }

  function Compile(db: Db, run: RunId, task: NodeId, tools: seq<string>, h: History, note: string -> string)
    : Result<Ir, CompileError>
  {
    if run !in db.runs || task !in db.nodes then Err(StoreFailed(NotFound))
    else if !IsUserTurn(db.nodes[task]) then Err(InvalidTask(task))
    else
      var members := ContextOf(db, run).Keys;
      if !(members <= db.nodes.Keys) then Err(StoreFailed(NotFound))
      else
        RankedKnown(db.nodes, members);
        Ok(Ir(task, db.nodes[task].payload.text,
              Items(db, db.runs[run].project, Ranked(db.nodes, members), members + {task}),
              RecentOutcomes(db, run, h.window), tools, Results(DataOf(Log(db.events, run)), h.omitted, note),
              h.recalled, h.review))
  }

  lemma RelationsStep(edges: seq<Edge>, project: ProjectId, from: NodeId, shown: set<NodeId>, i: nat)
    requires i < |edges|
    ensures Relations(edges[..i + 1], project, from, shown)
      == Relations(edges[..i], project, from, shown)
         + if edges[i].project == project && edges[i].from == from && edges[i].to in shown
           then [Relation(edges[i].edgeType, edges[i].to)] else []
  {
    assert edges[..i + 1][..i] == edges[..i];
  }

  method FilterRelations(edges: seq<Edge>, project: ProjectId, from: NodeId, shown: set<NodeId>) returns (relations: seq<Relation>)
    ensures relations == Relations(edges, project, from, shown)
  {
    relations := [];
    for i := 0 to |edges|
      invariant relations == Relations(edges[..i], project, from, shown)
    {
      RelationsStep(edges, project, from, shown, i);
      if edges[i].project == project && edges[i].from == from && edges[i].to in shown {
        relations := relations + [Relation(edges[i].edgeType, edges[i].to)];
      }
    }
    assert edges[..|edges|] == edges;
  }

  method CollectItems(db: Db, project: ProjectId, members: seq<NodeId>, shown: set<NodeId>) returns (items: seq<ContextItem>)
    requires forall i | 0 <= i < |members| :: members[i] in db.nodes
    ensures items == Items(db, project, members, shown)
  {
    items := [];
    for i := 0 to |members|
      invariant |items| == i && forall k | 0 <= k < i :: items[k] == Item(db, project, members[k], shown)
    {
      var node := db.nodes[members[i]];
      var relations := FilterRelations(db.edges, project, members[i], shown);
      items := items + [ContextItem(members[i], node.nodeType, node.payload, relations)];
    }
  }

  /** Reads the task, the members in order and their relations, the recent turns and the tool results. */
  method CompileWith(db: Db, run: RunId, task: NodeId, tools: seq<string>, h: History, note: string -> string)
    returns (r: Result<Ir, CompileError>)
    ensures r == Compile(db, run, task, tools, h, note)
  {
    if run !in db.runs || task !in db.nodes {
      return Err(StoreFailed(NotFound));
    }
    if !IsUserTurn(db.nodes[task]) {
      return Err(InvalidTask(task));
    }
    var members := ContextOf(db, run).Keys;
    if !(members <= db.nodes.Keys) {
      return Err(StoreFailed(NotFound));
    }
    RankedKnown(db.nodes, members);
    var context := CollectItems(db, db.runs[run].project, Ranked(db.nodes, members), members + {task});
    var recent := RecentRunOutcomes(db, run, h.window);
    var results := ToolResults(DataOf(Log(db.events, run)), h.omitted, note);
    return Ok(Ir(task, db.nodes[task].payload.text, context, recent, tools, results, h.recalled, h.review));
  }

  // ---- What an IR shows ----

  function ShownNodes(items: seq<ContextItem>): seq<NodeId> { seq(|items|, i requires 0 <= i < |items| => items[i].node) }

  lemma ItemsShown(db: Db, project: ProjectId, members: seq<NodeId>, shown: set<NodeId>)
    requires forall i | 0 <= i < |members| :: members[i] in db.nodes
    ensures ShownNodes(Items(db, project, members, shown)) == members
  {
  }

  lemma ShownFrom(items: seq<ContextItem>, members: seq<NodeId>, within: set<NodeId>)
    requires ShownNodes(items) == members && forall n | n in members :: n in within
    ensures forall c | c in items :: c.node in within
  {
    forall c | c in items ensures c.node in within {
      var i :| 0 <= i < |items| && items[i] == c;
      assert ShownNodes(items)[i] in members;
    }
  }

  /** A shown item tells its node as the store has it. */
  predicate TellsNode(nodes: map<NodeId, Node>, c: ContextItem) {
    c.node in nodes && c.nodeType == nodes[c.node].nodeType && c.payload == nodes[c.node].payload
  }

  /** An IR compiled for a run shows exactly the run's members, oldest first, and never the task among
      them; each item has the type and the payload of its node. */
  lemma ShowsContext(db: Db, run: RunId, tools: seq<string>, h: History, note: string -> string)
    requires run in db.runs && run in db.context && RunOk(db, run)
    requires Compile(db, run, TaskOf(Log(db.events, run)), tools, h, note).Ok?
    ensures var ir := Compile(db, run, TaskOf(Log(db.events, run)), tools, h, note).value;
      db.context[run].Keys <= db.nodes.Keys && ShownNodes(ir.context) == Ranked(db.nodes, db.context[run].Keys)
      && forall c | c in ir.context :: c.node in Others(db, run) && TellsNode(db.nodes, c)
  {
    var task, members := TaskOf(Log(db.events, run)), Ranked(db.nodes, db.context[run].Keys);
    RankedKnown(db.nodes, db.context[run].Keys);
    RankedMembers(db.nodes, db.context[run].Keys);
    var items := Items(db, db.runs[run].project, members, db.context[run].Keys + {task});
    ItemsShown(db, db.runs[run].project, members, db.context[run].Keys + {task});
    ShownFrom(items, members, Others(db, run));
    assert Compile(db, run, task, tools, h, note).value.context == items;
  }

  lemma {:induction false} RelationsAre(edges: seq<Edge>, project: ProjectId, from: NodeId, shown: set<NodeId>, r: Relation)
    ensures r in Relations(edges, project, from, shown) <==>
      exists e :: e in edges && e.project == project && e.from == from && e.to == r.to && e.edgeType == r.edgeType && r.to in shown
    decreases |edges|
  {
    if edges != [] {
      var init, last := edges[..|edges| - 1], edges[|edges| - 1];
      RelationsAre(init, project, from, shown, r);
      assert edges == init + [last];
      assert last in edges;
      assert forall e | e in init :: e in edges;
    }
  }

  /** One by one, in the order the edges were created. */
  lemma {:induction false} RelationsSplit(a: seq<Edge>, b: seq<Edge>, project: ProjectId, from: NodeId, shown: set<NodeId>)
    ensures Relations(a + b, project, from, shown) == Relations(a, project, from, shown) + Relations(b, project, from, shown)
    decreases |b|
  {
    if b == [] {
      assert a + b == a;
    } else {
      assert (a + b)[..|a + b| - 1] == a + b[..|b| - 1];
      RelationsSplit(a, b[..|b| - 1], project, from, shown);
    }
  }

  lemma ItemRelations(db: Db, project: ProjectId, n: NodeId, shown: set<NodeId>, r: Relation)
    requires EdgesInProjects(db.nodes, db.edges) && NodeInProject(db.nodes, project, n)
    ensures r in Item(db, project, n, shown).relations <==>
      r.to in shown && exists e :: e in db.edges && e.from == n && e.to == r.to && e.edgeType == r.edgeType
  {
    RelationsAre(db.edges, project, n, shown, r);
    if e :| e in db.edges && e.from == n && e.to == r.to && e.edgeType == r.edgeType {
      assert e.project == project;
    }
  }

  lemma ItemOf(db: Db, project: ProjectId, members: seq<NodeId>, shown: set<NodeId>, c: ContextItem)
    requires forall i | 0 <= i < |members| :: members[i] in db.nodes
    requires c in Items(db, project, members, shown)
    ensures c.node in members && c.node in db.nodes && c == Item(db, project, c.node, shown)
  {
    var items := Items(db, project, members, shown);
    var i :| 0 <= i < |items| && items[i] == c;
  }

  lemma RelationsShown(db: Db, project: ProjectId, members: set<NodeId>, task: NodeId, c: ContextItem, r: Relation)
    requires EdgesInProjects(db.nodes, db.edges) && members <= ProjectNodes(db.nodes, project)
    requires forall i | 0 <= i < |Ranked(db.nodes, members)| :: Ranked(db.nodes, members)[i] in db.nodes
    requires c in Items(db, project, Ranked(db.nodes, members), members + {task})
    ensures r in c.relations <==>
      (r.to == task || r.to in Ranked(db.nodes, members)) && exists e :: e in db.edges && e.from == c.node && e.to == r.to && e.edgeType == r.edgeType
  {
    RankedMembers(db.nodes, members);
    ItemOf(db, project, Ranked(db.nodes, members), members + {task}, c);
    ItemRelations(db, project, c.node, members + {task}, r);
  }

  lemma ContextIs(db: Db, run: RunId, task: NodeId, tools: seq<string>, h: History, note: string -> string)
    requires run in db.runs && run in db.context && Compile(db, run, task, tools, h, note).Ok?
    ensures var members := db.context[run].Keys;
      var ir := Compile(db, run, task, tools, h, note).value;
      members <= db.nodes.Keys && (forall i | 0 <= i < |Ranked(db.nodes, members)| :: Ranked(db.nodes, members)[i] in db.nodes)
      && ir.task == task && ir.context == Items(db, db.runs[run].project, Ranked(db.nodes, members), members + {task})
  {
    RankedKnown(db.nodes, db.context[run].Keys);
  }

  /** In a store that keeps the invariant, the relations of a shown item are all the edges of the graph from
      its node to the task and the nodes the IR shows: none is missed for belonging to another project. */
  lemma ShowsRelations(db: Db, run: RunId, tools: seq<string>, h: History, note: string -> string, c: ContextItem, r: Relation)
    requires EdgesInProjects(db.nodes, db.edges) && run in db.runs && run in db.context && RunOk(db, run)
    requires Compile(db, run, TaskOf(Log(db.events, run)), tools, h, note).Ok?
    requires c in Compile(db, run, TaskOf(Log(db.events, run)), tools, h, note).value.context
    ensures var ir := Compile(db, run, TaskOf(Log(db.events, run)), tools, h, note).value;
      r in c.relations <==>
        (r.to == ir.task || r.to in ShownNodes(ir.context))
        && exists e :: e in db.edges && e.from == c.node && e.to == r.to && e.edgeType == r.edgeType
  {
    var task, members, project := TaskOf(Log(db.events, run)), db.context[run].Keys, db.runs[run].project;
    ContextIs(db, run, task, tools, h, note);
    ItemsShown(db, project, Ranked(db.nodes, members), members + {task});
    RelationsShown(db, project, members, task, c, r);
  }
}
