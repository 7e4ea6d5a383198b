/** Classifying context: which classifications are accepted, what applying one does, and what the
    offline policy makes of a project. */
module Projection {
  import opened Common
  import opened Order
  import opened Records
  import opened Database
  import opened Invariants
  import opened ContextSteps

  datatype ClassificationError =
    | UnknownCandidate(node: NodeId) | DuplicateClassification(node: NodeId) | UnknownTool(name: string) | DuplicateTool(name: string)

  // ---- Which classifications are accepted ----

  function CandidateIds(request: Request): set<NodeId> { set c | c in request.candidates :: c.node }

  predicate EntriesOk(candidates: set<NodeId>, entries: seq<Entry>) {
    (forall i | 0 <= i < |entries| :: entries[i].node in candidates)
    && forall i, j | 0 <= i < j < |entries| :: entries[i].node != entries[j].node
  }

  predicate ToolsOk(offered: set<string>, entries: seq<ToolEntry>) {
    (forall i | 0 <= i < |entries| :: entries[i].name in offered)
    && forall i, j | 0 <= i < j < |entries| :: entries[i].name != entries[j].name
  }

  function Names(tools: seq<string>): set<string> { set t | t in tools }

  predicate ValidClassification(request: Request, c: Classification) {
    EntriesOk(CandidateIds(request), c.entries) && ToolsOk(Names(request.tools), c.tools)
  }

  function EntryNodes(entries: seq<Entry>): set<NodeId> { set e | e in entries :: e.node }

  predicate RepeatsNode(candidates: set<NodeId>, entries: seq<Entry>, j: nat, node: NodeId) {
    j < |entries| && entries[j].node == node && EntriesOk(candidates, entries[..j])
    && exists i :: 0 <= i < j && entries[i].node == node
  }

  /** Checks entries in order and stops at the first violation; accepts exactly what is valid. */
  method ValidateClassification(request: Request, c: Classification) returns (r: Result<(), ClassificationError>)
    ensures r.Ok? <==> ValidClassification(request, c)
    ensures r.Err? && r.error.UnknownCandidate? ==> r.error.node !in CandidateIds(request)
    ensures r.Err? && r.error.DuplicateClassification? ==>
      exists j :: RepeatsNode(CandidateIds(request), c.entries, j, r.error.node)
    ensures r.Err? && (r.error.UnknownTool? || r.error.DuplicateTool?) ==> EntriesOk(CandidateIds(request), c.entries)
  {
    var candidates := set c | c in request.candidates :: c.node;
    var seen: set<NodeId> := {};
    for i := 0 to |c.entries|
      invariant forall k | 0 <= k < i :: c.entries[k].node in candidates
      invariant forall k, l | 0 <= k < l < i :: c.entries[k].node != c.entries[l].node
      invariant seen == set k | 0 <= k < i :: c.entries[k].node
    {
      var node := c.entries[i].node;
      if node !in candidates {
        return Err(UnknownCandidate(node));
      }
      if node in seen {
        assert RepeatsNode(candidates, c.entries, i, node);
        return Err(DuplicateClassification(node));
      }
      seen := seen + {node};
    }
    var offered := set t | t in request.tools;
    var seenTools: set<string> := {};
    for i := 0 to |c.tools|
      invariant forall k | 0 <= k < i :: c.tools[k].name in offered
      invariant forall k, l | 0 <= k < l < i :: c.tools[k].name != c.tools[l].name
      invariant seenTools == set k | 0 <= k < i :: c.tools[k].name
    {
      var name := c.tools[i].name;
      if name !in offered {
        return Err(UnknownTool(name));
      }
      if name in seenTools {
        return Err(DuplicateTool(name));
      }
      seenTools := seenTools + {name};
    }
    return Ok(());
  }

  // ---- What applying one does ----

  function Activated(entries: seq<Entry>): set<NodeId> { set e | e in entries && e.active :: e.node }

  /** Applying distinct entries: the active ones join, the inactive ones leave, the rest stay. */
  lemma {:induction false} MembershipOf(before: map<NodeId, Source>, entries: seq<Entry>, n: NodeId)
    requires forall i, j | 0 <= i < j < |entries| :: entries[i].node != entries[j].node
    ensures n in Membership(before, entries) <==> n in Activated(entries) || (n in before && n !in EntryNodes(entries))
    ensures n in Membership(before, entries) ==>
      Membership(before, entries)[n] == if n in Activated(entries) then Jev else before[n]
    decreases |entries|
  {
    if entries != [] {
      var init, e := entries[..|entries| - 1], entries[|entries| - 1];
      MembershipOf(before, init, n);
      assert entries == init + [e];
      assert n in EntryNodes(entries) <==> n in EntryNodes(init) || n == e.node by {
        if n in EntryNodes(init) {
          var x :| x in init && x.node == n;
          assert x in entries;
        }
        assert e in entries;
      }
      assert n in Activated(entries) <==> n in Activated(init) || (e.active && n == e.node) by {
        if n in Activated(init) {
          var x :| x in init && x.active && x.node == n;
          assert x in entries;
        }
        assert e in entries;
      }
    }
  }

  /** Applying a validated classification does not depend on the order of its entries. */
  lemma MembershipIgnoresOrder(before: map<NodeId, Source>, a: seq<Entry>, b: seq<Entry>)
    requires forall i, j | 0 <= i < j < |a| :: a[i].node != a[j].node
    requires forall i, j | 0 <= i < j < |b| :: b[i].node != b[j].node
    requires multiset(a) == multiset(b)
    ensures Membership(before, a) == Membership(before, b)
  {
    forall e ensures e in a <==> e in b {
      assert e in a <==> e in multiset(a);
      assert e in b <==> e in multiset(b);
    }
    assert Activated(a) == Activated(b) && EntryNodes(a) == EntryNodes(b);
    forall n ensures n in Membership(before, a) <==> n in Membership(before, b) {
      MembershipOf(before, a, n);
      MembershipOf(before, b, n);
    }
    forall n | n in Membership(before, a) ensures Membership(before, a)[n] == Membership(before, b)[n] {
      MembershipOf(before, a, n);
      MembershipOf(before, b, n);
    }
  }

  /** A validated classification keeps the context among the candidates. */
  lemma MembershipWithin(before: map<NodeId, Source>, request: Request, c: Classification, others: set<NodeId>)
    requires ValidClassification(request, c) && CandidateIds(request) <= others && before.Keys <= others
    ensures Membership(before, c.entries).Keys <= others
  {
    forall n | n in Membership(before, c.entries) ensures n in others {
      MembershipOf(before, c.entries, n);
      if n in Activated(c.entries) {
        var e :| e in c.entries && e.active && e.node == n;
        var i :| 0 <= i < |c.entries| && c.entries[i] == e;
      }
    }
  }

  // ---- The request ----

  lemma RequestCandidates(db: Db, run: RunId, task: NodeId, tools: seq<string>)
    requires run in db.runs
    ensures CandidateIds(ClassificationRequest(db, run, task, tools)) == ProjectNodes(db.nodes, db.runs[run].project) - {task}
  {
    var others := ProjectNodes(db.nodes, db.runs[run].project) - {task};
    var request := ClassificationRequest(db, run, task, tools);
    RankedMembers(db.nodes, others);
    var ids := Ranked(db.nodes, others);
    forall n ensures n in CandidateIds(request) <==> n in others {
      if n in others {
        var i :| 0 <= i < |ids| && ids[i] == n;
        assert request.candidates[i].node == n;
      }
      if n in CandidateIds(request) {
        var c :| c in request.candidates && c.node == n;
        var i :| 0 <= i < |request.candidates| && request.candidates[i] == c;
        assert ids[i] == n;
      }
    }
  }

  /** What Jev is told of a candidate is what the store holds: its type, and whether it is in the run's context. */
  lemma RequestTells(db: Db, run: RunId, task: NodeId, tools: seq<string>, c: Candidate)
    requires run in db.runs && c in ClassificationRequest(db, run, task, tools).candidates
    ensures c.node in db.nodes && c.nodeType == db.nodes[c.node].nodeType
    ensures c.inContext <==> run in db.context && c.node in db.context[run]
  {
    RankedMembers(db.nodes, ProjectNodes(db.nodes, db.runs[run].project) - {task});
    var candidates := ClassificationRequest(db, run, task, tools).candidates;
    var i :| 0 <= i < |candidates| && candidates[i] == c;
  }

  lemma {:induction false} CandidateEdgesAre(edges: seq<Edge>, project: ProjectId, others: set<NodeId>, j: JevEdge)
    ensures j in CandidateEdges(edges, project, others) <==>
      j.from in others && j.to in others
      && exists e :: e in edges && e.project == project && e.from == j.from && e.to == j.to && e.edgeType == j.edgeType
    decreases |edges|
  {
    if edges != [] {
      var init, last := edges[..|edges| - 1], edges[|edges| - 1];
      CandidateEdgesAre(init, project, others, j);
      assert edges == init + [last];
      assert last in edges;
      assert forall e | e in init :: e in edges;
    }
  }

  /** And of the edges it is told exactly those between two candidates. */
  lemma RequestEdges(db: Db, run: RunId, task: NodeId, tools: seq<string>, j: JevEdge)
    requires run in db.runs && EdgesInProjects(db.nodes, db.edges)
    ensures var request := ClassificationRequest(db, run, task, tools);
      j in request.edges <==>
        j.from in CandidateIds(request) && j.to in CandidateIds(request)
        && exists e :: e in db.edges && e.from == j.from && e.to == j.to && e.edgeType == j.edgeType
  {
    var others := ProjectNodes(db.nodes, db.runs[run].project) - {task};
    RequestCandidates(db, run, task, tools);
    CandidateEdgesAre(db.edges, db.runs[run].project, others, j);
    if j.from in others {
      if e :| e in db.edges && e.from == j.from && e.to == j.to && e.edgeType == j.edgeType {
        assert e.project == db.runs[run].project;
      }
    }
  }

  // ---- The offline policy ----

  function Superseded(edges: seq<JevEdge>): set<NodeId> { set e | e in edges && e.edgeType == Supersedes :: e.to }

  /** The last `window` conversation candidates. */
  function RecentConversations(candidates: seq<Candidate>, window: nat): set<NodeId>
    decreases |candidates|
  {
    if candidates == [] || window == 0 then {}
    else
      var init, last := candidates[..|candidates| - 1], candidates[|candidates| - 1];
      if last.nodeType == ConversationNode then {last.node} + RecentConversations(init, window - 1)
      else RecentConversations(init, window)
  }

  predicate KeepsActive(request: Request, window: nat, c: Candidate) {
    c.node !in Superseded(request.edges)
    && (c.nodeType != ConversationNode || c.node in RecentConversations(request.candidates, window))
  }

  function ClassifyByPolicy(request: Request, window: nat): Classification {
    Classification(
      seq(|request.candidates|, i requires 0 <= i < |request.candidates| =>
        Entry(request.candidates[i].node, KeepsActive(request, window, request.candidates[i]))),
      [])
  }

  predicate DistinctCandidates(request: Request) {
    forall i, j | 0 <= i < j < |request.candidates| :: request.candidates[i].node != request.candidates[j].node
  }

  /** The policy's output always passes validation, and what it leaves active is exactly what it keeps,
      whatever was in context before. */
  lemma PolicyDecidesAlone(request: Request, window: nat, before: map<NodeId, Source>, n: NodeId)
    requires DistinctCandidates(request) && before.Keys <= CandidateIds(request)
    ensures ValidClassification(request, ClassifyByPolicy(request, window))
    ensures n in Membership(before, ClassifyByPolicy(request, window).entries)
      <==> exists i :: 0 <= i < |request.candidates| && request.candidates[i].node == n && KeepsActive(request, window, request.candidates[i])
  {
    var entries := ClassifyByPolicy(request, window).entries;
    forall i | 0 <= i < |entries| ensures entries[i].node in CandidateIds(request) {
      assert request.candidates[i] in request.candidates;
    }
    MembershipOf(before, entries, n);
    if n in before {
      var c :| c in request.candidates && c.node == n;
      var i :| 0 <= i < |request.candidates| && request.candidates[i] == c;
      assert entries[i] in entries && entries[i].node == n;
    }
    if n in Activated(entries) {
      var e :| e in entries && e.active && e.node == n;
      var i :| 0 <= i < |entries| && entries[i] == e;
      assert request.candidates[i].node == n && KeepsActive(request, window, request.candidates[i]);
    }
    if i :| 0 <= i < |request.candidates| && request.candidates[i].node == n && KeepsActive(request, window, request.candidates[i]) {
      assert entries[i] in entries && entries[i].active;
    }
  }

  // ---- The policy over the store ----

  predicate IsConversation(c: Candidate) { c.nodeType == ConversationNode }

  /** Conversation candidates after position `i`. */
  function LaterNodes(candidates: seq<Candidate>, i: int): set<NodeId> {
    set j | 0 <= j < |candidates| && i < j && IsConversation(candidates[j]) :: candidates[j].node
  }

  lemma LaterNodesStep(candidates: seq<Candidate>, i: int)
    requires candidates != [] && i < |candidates| - 1
    requires forall a, b | 0 <= a < b < |candidates| :: candidates[a].node != candidates[b].node
    ensures var init, last := candidates[..|candidates| - 1], candidates[|candidates| - 1];
      |LaterNodes(candidates, i)| == |LaterNodes(init, i)| + (if IsConversation(last) then 1 else 0)
  {
    var init, last := candidates[..|candidates| - 1], candidates[|candidates| - 1];
    var added := if IsConversation(last) then {last.node} else {};
    forall n ensures n in LaterNodes(candidates, i) <==> n in LaterNodes(init, i) || n in added {
      if n in LaterNodes(init, i) {
        var j :| 0 <= j < |init| && i < j && IsConversation(init[j]) && init[j].node == n;
        assert candidates[j] == init[j];
      }
      if n in LaterNodes(candidates, i) {
        var j :| 0 <= j < |candidates| && i < j && IsConversation(candidates[j]) && candidates[j].node == n;
        if j < |init| { assert init[j] == candidates[j]; }
      }
    }
    assert LaterNodes(candidates, i) == LaterNodes(init, i) + added;
    assert last.node !in LaterNodes(init, i);
  }

  /** A conversation candidate is recent exactly when fewer than `window` come after it. */
  lemma {:induction false} RecentCounts(candidates: seq<Candidate>, window: nat, i: nat)
    requires i < |candidates| && IsConversation(candidates[i])
    requires forall a, b | 0 <= a < b < |candidates| :: candidates[a].node != candidates[b].node
    ensures candidates[i].node in RecentConversations(candidates, window) <==> |LaterNodes(candidates, i)| < window
    decreases |candidates|
  {
    var init, last := candidates[..|candidates| - 1], candidates[|candidates| - 1];
    RecentAreCandidates(init, if IsConversation(last) && window > 0 then window - 1 else window);
    if i == |candidates| - 1 {
      assert LaterNodes(candidates, i) == {};
    } else {
      assert init[i] == candidates[i];
      LaterNodesStep(candidates, i);
      if window > 0 {
        RecentCounts(init, if IsConversation(last) then window - 1 else window, i);
      }
    }
  }

  predicate IsCandidate(candidates: seq<Candidate>, n: NodeId) { exists i :: 0 <= i < |candidates| && candidates[i].node == n }

  lemma CandidateOfMore(candidates: seq<Candidate>, n: NodeId)
    requires candidates != [] && (IsCandidate(candidates[..|candidates| - 1], n) || candidates[|candidates| - 1].node == n)
    ensures IsCandidate(candidates, n)
  {
    if candidates[|candidates| - 1].node != n {
      var i :| 0 <= i < |candidates| - 1 && candidates[..|candidates| - 1][i].node == n;
      assert candidates[i].node == n;
    }
  }

  lemma {:induction false} RecentIsCandidate(candidates: seq<Candidate>, window: nat, n: NodeId)
    requires n in RecentConversations(candidates, window)
    ensures IsCandidate(candidates, n)
    decreases |candidates|
  {
    var init, last := candidates[..|candidates| - 1], candidates[|candidates| - 1];
    var less := if IsConversation(last) then window - 1 else window;
    if n != last.node {
      assert n in RecentConversations(init, less);
      RecentIsCandidate(init, less, n);
    }
    CandidateOfMore(candidates, n);
  }

  lemma RecentAreCandidates(candidates: seq<Candidate>, window: nat)
    ensures forall n | n in RecentConversations(candidates, window) :: IsCandidate(candidates, n)
  {
    forall n | n in RecentConversations(candidates, window) ensures IsCandidate(candidates, n) {
      RecentIsCandidate(candidates, window, n);
    }
  }

  /** Conversation nodes created after `n`, among `others`. */
  function LaterTurns(nodes: map<NodeId, Node>, others: set<NodeId>, n: NodeId): set<NodeId>
    requires others <= nodes.Keys && n in nodes
  {
    set m | m in others && nodes[m].nodeType == ConversationNode && Less(NodeKey(nodes, n), NodeKey(nodes, m))
  }

  /** What the offline policy keeps of a project: what no other candidate supersedes and, of the
      conversation, the latest `window` turns. */
  predicate PolicyKeeps(db: Db, project: ProjectId, others: set<NodeId>, window: nat, n: NodeId)
    requires others <= db.nodes.Keys
  {
    n in others
    && !(exists e :: e in db.edges && e.project == project && e.from in others && e.to == n && e.edgeType == Supersedes)
    && (db.nodes[n].nodeType == ConversationNode ==> |LaterTurns(db.nodes, others, n)| < window)
  }

  lemma RankedAscends(nodes: map<NodeId, Node>, members: set<NodeId>)
    requires members <= nodes.Keys
    ensures var ids := Ranked(nodes, members);
      (forall i | 0 <= i < |ids| :: ids[i] in members)
      && forall i, j | 0 <= i < j < |ids| :: ids[i] in members && ids[j] in members && Less(NodeKey(nodes, ids[i]), NodeKey(nodes, ids[j]))
  {
    var keys := set n | n in members :: NodeKey(nodes, n);
    var sorted := Sorted(keys);
    forall i | 0 <= i < |sorted| ensures Ids(sorted)[i] in members && NodeKey(nodes, Ids(sorted)[i]) == sorted[i] {
      assert sorted[i] in sorted && sorted[i] in keys;
    }
  }

  /** In ranked order, coming later and having the greater key are the same thing. */
  lemma LaterInRank(nodes: map<NodeId, Node>, others: set<NodeId>, i: nat, m: NodeId)
    requires others <= nodes.Keys && i < |Ranked(nodes, others)| && m in others
    ensures Ranked(nodes, others)[i] in others
    ensures Less(NodeKey(nodes, Ranked(nodes, others)[i]), NodeKey(nodes, m))
      <==> exists j :: i < j < |Ranked(nodes, others)| && Ranked(nodes, others)[j] == m
  {
    var ids := Ranked(nodes, others);
    RankedMembers(nodes, others);
    RankedAscends(nodes, others);
    var j :| 0 <= j < |ids| && ids[j] == m;
  }

  lemma LaterIsLater(db: Db, run: RunId, task: NodeId, tools: seq<string>, i: nat)
    requires run in db.runs
    requires i < |ClassificationRequest(db, run, task, tools).candidates|
    ensures var others := ProjectNodes(db.nodes, db.runs[run].project) - {task};
      var candidates := ClassificationRequest(db, run, task, tools).candidates;
      candidates[i].node in others && LaterNodes(candidates, i) == LaterTurns(db.nodes, others, candidates[i].node)
  {
    var others := ProjectNodes(db.nodes, db.runs[run].project) - {task};
    var candidates := ClassificationRequest(db, run, task, tools).candidates;
    var ids := Ranked(db.nodes, others);
    RankedAscends(db.nodes, others);
    forall m ensures m in LaterNodes(candidates, i) <==> m in LaterTurns(db.nodes, others, ids[i]) {
      if m in LaterNodes(candidates, i) {
        var j :| 0 <= j < |candidates| && i < j && IsConversation(candidates[j]) && candidates[j].node == m;
        assert ids[j] == m;
      }
      if m in LaterTurns(db.nodes, others, ids[i]) {
        LaterInRank(db.nodes, others, i, m);
        var j :| i < j < |ids| && ids[j] == m;
        assert IsConversation(candidates[j]) && candidates[j].node == m;
      }
    }
  }

  lemma {:induction false} SupersededOf(edges: seq<Edge>, project: ProjectId, others: set<NodeId>, n: NodeId)
    requires n in others
    ensures n in Superseded(CandidateEdges(edges, project, others)) <==>
      exists e :: e in edges && e.project == project && e.from in others && e.to == n && e.edgeType == Supersedes
    decreases |edges|
  {
    if edges != [] {
      var init, last := edges[..|edges| - 1], edges[|edges| - 1];
      SupersededOf(init, project, others, n);
      assert edges == init + [last];
      var rest := CandidateEdges(init, project, others);
      var row := JevEdge(last.from, last.to, last.edgeType);
      assert n in Superseded(rest + [row]) <==> n in Superseded(rest) || (row.edgeType == Supersedes && row.to == n) by {
        if n in Superseded(rest) {
          var x :| x in rest && x.edgeType == Supersedes && x.to == n;
          assert x in rest + [row];
        }
        assert row in rest + [row];
      }
      assert last in edges;
      assert forall e | e in init :: e in edges;
    }
  }

  /** Asked about a run, the offline policy decides its whole context: whatever was carried, what is
      left is exactly what `PolicyKeeps`. */
  lemma PolicyFixesContext(db: Db, run: RunId, tools: seq<string>, window: nat)
    requires run in db.runs && run in db.context && RunOk(db, run)
    ensures var task := TaskOf(Log(db.events, run));
      var others := Others(db, run);
      var request := ClassificationRequest(db, run, task, tools);
      var c := ClassifyByPolicy(request, window);
      ValidClassification(request, c) && others <= db.nodes.Keys
      && Membership(db.context[run], c.entries).Keys
         == set n | n in others && PolicyKeeps(db, db.runs[run].project, others, window, n)
  {
    var task, others := TaskOf(Log(db.events, run)), Others(db, run);
    var request := ClassificationRequest(db, run, task, tools);
    var c := ClassifyByPolicy(request, window);
    RequestCandidates(db, run, task, tools);
    RequestDistinct(db, run, task, tools);
    PolicyDecidesAlone(request, window, db.context[run], task);
    forall n ensures n in Membership(db.context[run], c.entries) <==> PolicyKeeps(db, db.runs[run].project, others, window, n) {
      PolicyFixesNode(db, run, tools, window, n);
    }
  }

  lemma RequestDistinct(db: Db, run: RunId, task: NodeId, tools: seq<string>)
    requires run in db.runs
    ensures DistinctCandidates(ClassificationRequest(db, run, task, tools))
  {
    RankedMembers(db.nodes, ProjectNodes(db.nodes, db.runs[run].project) - {task});
  }

  /** The place of a candidate. */
  lemma CandidateAt(db: Db, run: RunId, task: NodeId, tools: seq<string>, n: NodeId) returns (i: nat)
    requires run in db.runs && n in ProjectNodes(db.nodes, db.runs[run].project) - {task}
    ensures var candidates := ClassificationRequest(db, run, task, tools).candidates;
      i < |candidates| && candidates[i].node == n && forall k | 0 <= k < |candidates| && candidates[k].node == n :: k == i
  {
    var others := ProjectNodes(db.nodes, db.runs[run].project) - {task};
    RankedMembers(db.nodes, others);
    var ids := Ranked(db.nodes, others);
    i :| 0 <= i < |ids| && ids[i] == n;
  }

  lemma PolicyFixesNode(db: Db, run: RunId, tools: seq<string>, window: nat, n: NodeId)
    requires run in db.runs && run in db.context && RunOk(db, run)
    ensures Others(db, run) <= db.nodes.Keys
    ensures n in Membership(db.context[run], ClassifyByPolicy(ClassificationRequest(db, run, TaskOf(Log(db.events, run)), tools), window).entries)
      <==> PolicyKeeps(db, db.runs[run].project, Others(db, run), window, n)
  {
    var task := TaskOf(Log(db.events, run));
    var request := ClassificationRequest(db, run, task, tools);
    RequestCandidates(db, run, task, tools);
    RequestDistinct(db, run, task, tools);
    PolicyDecidesAlone(request, window, db.context[run], n);
    if n in Others(db, run) {
      var i := CandidateAt(db, run, task, tools, n);
      KeepsWhatPolicyKeeps(db, run, tools, window, i);
    } else {
      forall k | 0 <= k < |request.candidates| ensures request.candidates[k].node != n {
        assert request.candidates[k] in request.candidates && request.candidates[k].node in CandidateIds(request);
      }
    }
  }

  lemma KeepsWhatPolicyKeeps(db: Db, run: RunId, tools: seq<string>, window: nat, i: nat)
    requires run in db.runs && run in db.context && RunOk(db, run)
    requires i < |ClassificationRequest(db, run, TaskOf(Log(db.events, run)), tools).candidates|
    ensures var request := ClassificationRequest(db, run, TaskOf(Log(db.events, run)), tools);
      KeepsActive(request, window, request.candidates[i])
      <==> PolicyKeeps(db, db.runs[run].project, Others(db, run), window, request.candidates[i].node)
  {
    var task, others := TaskOf(Log(db.events, run)), Others(db, run);
    var request := ClassificationRequest(db, run, task, tools);
    RankedMembers(db.nodes, others);
    LaterIsLater(db, run, task, tools, i);
    SupersededOf(db.edges, db.runs[run].project, others, request.candidates[i].node);
    if IsConversation(request.candidates[i]) {
      RecentCounts(request.candidates, window, i);
    }
  }
}
