/** Changes of a run's active context: what the events say is what the table holds, and the run's
    own task never enters. */
module ContextSteps {
  import opened Common
  import opened Records
  import opened Database
  import opened Invariants

  // ---- Membership rows ----

  predicate DistinctRows(rows: seq<Member>) {
    forall i, j | 0 <= i < j < |rows| :: rows[i].node != rows[j].node
  }

  lemma {:induction false} RowsRefused(db: Db, project: ProjectId, rows: seq<Member>, seen: set<NodeId>)
    ensures MemberRefusal(db, project, rows, seen) == None <==>
      (forall i | 0 <= i < |rows| :: NodeInProject(db.nodes, project, rows[i].node) && rows[i].node !in seen) && DistinctRows(rows)
    decreases |rows|
  {
    if rows != [] {
      RowsRefused(db, project, rows[1..], seen + {rows[0].node});
      if MemberRefusal(db, project, rows, seen) == None {
        forall i | 0 <= i < |rows| ensures NodeInProject(db.nodes, project, rows[i].node) && rows[i].node !in seen {
          assert i > 0 ==> rows[i] == rows[1..][i - 1];
        }
        forall i, j | 0 <= i < j < |rows| ensures rows[i].node != rows[j].node {
          assert rows[j] == rows[1..][j - 1];
          assert i > 0 ==> rows[i] == rows[1..][i - 1];
        }
      }
    }
  }

  /** The rows before `k` are nodes of the project, each once, and row `k` is not: it repeats one of them, or is foreign. */
  predicate FirstBad(nodes: map<NodeId, Node>, project: ProjectId, rows: seq<Member>, seen: set<NodeId>, k: nat, refusal: StoreError) {
    k < |rows| && (forall i | 0 <= i < k :: NodeInProject(nodes, project, rows[i].node) && rows[i].node !in seen) && DistinctRows(rows[..k])
    && match refusal
       case DuplicateContextMember(n) => n == rows[k].node && (n in seen || exists i :: 0 <= i < k && rows[i].node == n)
       case UnknownNode(n) =>
         n == rows[k].node && !NodeInProject(nodes, project, n) && n !in seen && forall i | 0 <= i < k :: rows[i].node != n
       case _ => false
  }

  /** A refused membership is refused for the first row that is wrong. */
  lemma {:induction false} RefusedForFirst(db: Db, project: ProjectId, rows: seq<Member>, seen: set<NodeId>) returns (k: nat)
    requires MemberRefusal(db, project, rows, seen).Some?
    ensures FirstBad(db.nodes, project, rows, seen, k, MemberRefusal(db, project, rows, seen).value)
    decreases |rows|
  {
    if rows[0].node in seen || !NodeInProject(db.nodes, project, rows[0].node) {
      k := 0;
    } else {
      var m := RefusedForFirst(db, project, rows[1..], seen + {rows[0].node});
      k := m + 1;
      LaterBad(db.nodes, project, rows, seen, m, MemberRefusal(db, project, rows, seen).value);
    }
  }

  lemma LaterBad(nodes: map<NodeId, Node>, project: ProjectId, rows: seq<Member>, seen: set<NodeId>, m: nat, refusal: StoreError)
    requires rows != [] && rows[0].node !in seen && NodeInProject(nodes, project, rows[0].node)
    requires FirstBad(nodes, project, rows[1..], seen + {rows[0].node}, m, refusal)
    ensures FirstBad(nodes, project, rows, seen, m + 1, refusal)
  {
    var k, rest := m + 1, rows[1..];
    forall i | 0 <= i < k ensures NodeInProject(nodes, project, rows[i].node) && rows[i].node !in seen {
      assert i > 0 ==> rows[i] == rest[i - 1];
    }
    forall i, j | 0 <= i < j < k ensures rows[i].node != rows[j].node {
      assert rows[j] == rest[j - 1] && (i > 0 ==> rows[i] == rest[i - 1] && rest[..m][i - 1] == rest[i - 1]) && rest[..m][j - 1] == rest[j - 1];
    }
    if refusal.DuplicateContextMember? && rows[k].node !in seen && rows[k].node != rows[0].node {
      var i :| 0 <= i < m && rest[i].node == rows[k].node;
      assert rows[i + 1].node == rows[k].node;
    }
    if refusal.UnknownNode? {
      forall i | 0 <= i < k ensures rows[i].node != rows[k].node {
        assert i > 0 ==> rows[i] == rest[i - 1];
      }
    }
  }

  lemma {:induction false} MembersOfRows(rows: seq<Member>)
    requires DistinctRows(rows)
    ensures forall i | 0 <= i < |rows| :: rows[i].node in MembersOf(rows) && MembersOf(rows)[rows[i].node] == rows[i].source
    ensures forall n | n in MembersOf(rows) :: exists i :: 0 <= i < |rows| && rows[i].node == n
  {
    if rows != [] {
      var init := rows[..|rows| - 1];
      MembersOfRows(init);
      forall n | n in MembersOf(rows) ensures exists i :: 0 <= i < |rows| && rows[i].node == n {
        if n != rows[|rows| - 1].node {
          assert n in MembersOf(init);
          var i :| 0 <= i < |init| && init[i].node == n;
          assert rows[i].node == n;
        }
      }
    }
  }

  lemma ListingHolds(m: map<NodeId, Source>, n: NodeId)
    requires n in m
    ensures exists i :: 0 <= i < |Listing(m)| && Listing(m)[i].node == n
  {
    var rows := Listing(m);
    var nodes := set i | 0 <= i < |rows| :: rows[i].node;
    RowsInjective(rows, |rows|);
    assert nodes == set i | 0 <= i < |rows| :: rows[i].node;
    if n !in nodes {
      assert nodes <= m.Keys - {n};
      SubsetSize(nodes, m.Keys - {n});
    }
  }

  lemma {:induction false} RowsInjective(rows: seq<Member>, k: nat)
    requires k <= |rows| && DistinctRows(rows)
    ensures |set i | 0 <= i < k :: rows[i].node| == k
  {
    if k > 0 {
      RowsInjective(rows, k - 1);
      assert (set i | 0 <= i < k :: rows[i].node) == (set i | 0 <= i < k - 1 :: rows[i].node) + {rows[k - 1].node};
    }
  }

  lemma {:induction false} SubsetSize(a: set<NodeId>, b: set<NodeId>)
    requires a <= b
    ensures |a| <= |b|
  {
    if a != {} {
      var x :| x in a;
      SubsetSize(a - {x}, b - {x});
    }
  }

  lemma ListedMember(m: map<NodeId, Source>, n: NodeId)
    ensures n in MembersOf(Listing(m)) <==> n in m
    ensures n in m ==> MembersOf(Listing(m))[n] == m[n]
  {
    MembersOfRows(Listing(m));
    if n in m {
      ListingHolds(m, n);
      var i :| 0 <= i < |Listing(m)| && Listing(m)[i].node == n;
      assert Listing(m)[i].source == m[n];
    }
  }

  lemma MembersOfListing(m: map<NodeId, Source>)
    ensures MembersOf(Listing(m)) == m
  {
    forall n ensures (n in MembersOf(Listing(m)) <==> n in m) && (n in m ==> MembersOf(Listing(m))[n] == m[n]) {
      ListedMember(m, n);
    }
  }

  /** A membership map is stored exactly when every member is a node of the run's project. */
  lemma ReplacesContext(db: Db, run: RunId, m: map<NodeId, Source>)
    requires IsRunning(db, run)
    ensures m.Keys <= ProjectNodes(db.nodes, db.runs[run].project) ==>
      ReplaceContext(db, run, Listing(m)) == Ok(db.(context := db.context[run := m]))
    ensures !(m.Keys <= ProjectNodes(db.nodes, db.runs[run].project)) ==> ReplaceContext(db, run, Listing(m)).Err?
  {
    var rows := Listing(m);
    RowsRefused(db, db.runs[run].project, rows, {});
    MembersOfListing(m);
    if !(m.Keys <= ProjectNodes(db.nodes, db.runs[run].project)) {
      var n :| n in m && n !in ProjectNodes(db.nodes, db.runs[run].project);
      ListingHolds(m, n);
      var i :| 0 <= i < |rows| && rows[i].node == n;
      assert !NodeInProject(db.nodes, db.runs[run].project, rows[i].node);
    }
  }

  // ---- Several events at once ----

  function WithEvents(db: Db, run: RunId, data: seq<EventData>): Db
    decreases |data|
  {
    if data == [] then db else WithEvents(WithEvent(db, run, data[0]), run, data[1..])
  }

  function ContextFold(s: set<NodeId>, data: seq<EventData>): set<NodeId>
    decreases |data|
  {
    if data == [] then s else ContextFold(ContextEvent(s, data[0]), data[1..])
  }

  /** Events that change no table but the history and the context. */
  predicate Local(d: EventData) { !IsOpening(d) && !d.DagNodeCreated? && !d.DagEdgeCreated? }

  predicate AllLocal(data: seq<EventData>, others: set<NodeId>) {
    forall i | 0 <= i < |data| :: Local(data[i]) && Mid(data[i], others)
  }

  lemma LocalConcat(a: seq<EventData>, b: seq<EventData>, others: set<NodeId>)
    requires AllLocal(a, others) && AllLocal(b, others)
    ensures AllLocal(a + b, others)
  {
  }

  lemma LocalTail(data: seq<EventData>, others: set<NodeId>)
    requires data != [] && AllLocal(data, others)
    ensures AllLocal(data[1..], others)
  {
    assert forall i | 0 <= i < |data[1..]| :: data[1..][i] == data[i + 1];
  }

  lemma {:induction false} EventsKeepRun(db: Db, run: RunId, members: set<NodeId>, data: seq<EventData>)
    requires IsRunning(db, run) && RunHolds(db, run, members) && AllLocal(data, Others(db, run))
    ensures AppendEvents(db, run, data) == Ok(WithEvents(db, run, data))
    ensures WithEvents(db, run, data).runs == db.runs && WithEvents(db, run, data).nodes == db.nodes
    ensures RunHolds(WithEvents(db, run, data), run, ContextFold(members, data))
    decreases |data|
  {
    if data != [] {
      assert Mid(data[0], Others(db, run));
      AppendsNextRow(db, run, data[0]);
      EventKeepsRun(db, run, members, data[0]);
      var db1 := WithEvent(db, run, data[0]);
      LocalTail(data, Others(db, run));
      EventsKeepRun(db1, run, ContextEvent(members, data[0]), data[1..]);
    }
  }

  lemma {:induction false} EventsKeepRest(db: Db, run: RunId, data: seq<EventData>, others: set<NodeId>)
    requires AllLocal(data, others) && run in db.runs && EventsOfRuns(db.events, db.runs)
    ensures var db' := WithEvents(db, run, data);
      db' == db.(events := db'.events) && EventsOfRuns(db'.events, db.runs)
      && ReplayNodes(db'.events) == ReplayNodes(db.events) && ReplayEdges(db'.events, db.runs) == ReplayEdges(db.events, db.runs)
      && forall r | r != run :: Log(db'.events, r) == Log(db.events, r)
    decreases |data|
  {
    if data != [] {
      var db1 := WithEvent(db, run, data[0]);
      ReplayAppend(db.events, NextRow(db, run, data[0]), db.runs);
      OtherLogsKept(db, run, data[0]);
      LocalTail(data, others);
      EventsKeepRest(db1, run, data[1..], others);
    }
  }

  lemma {:induction false} FoldConcat(s: set<NodeId>, a: seq<EventData>, b: seq<EventData>)
    ensures ContextFold(s, a + b) == ContextFold(ContextFold(s, a), b)
    decreases |a|
  {
    if a == [] {
      assert a + b == b;
    } else {
      assert (a + b)[1..] == a[1..] + b;
      FoldConcat(ContextEvent(s, a[0]), a[1..], b);
    }
  }

  function Elements(nodes: seq<NodeId>): set<NodeId> { set n | n in nodes }

  lemma {:induction false} FoldAdded(s: set<NodeId>, nodes: seq<NodeId>)
    ensures ContextFold(s, Added(nodes)) == s + Elements(nodes)
    decreases |nodes|
  {
    if nodes != [] {
      assert Added(nodes)[1..] == Added(nodes[1..]);
      FoldAdded(s + {nodes[0]}, nodes[1..]);
      assert nodes == [nodes[0]] + nodes[1..];
    }
  }

  lemma {:induction false} FoldRemoved(s: set<NodeId>, nodes: seq<NodeId>)
    ensures ContextFold(s, Removed(nodes)) == s - Elements(nodes)
    decreases |nodes|
  {
    if nodes != [] {
      assert Removed(nodes)[1..] == Removed(nodes[1..]);
      FoldRemoved(s - {nodes[0]}, nodes[1..]);
      assert nodes == [nodes[0]] + nodes[1..];
    }
  }

  /** The events of a change from `before` to `after`. */
  function ChangeEvents(nodes: map<NodeId, Node>, before: set<NodeId>, after: set<NodeId>, head: EventData): seq<EventData>
    requires before <= nodes.Keys && after <= nodes.Keys
  {
    [head] + Added(Ranked(nodes, after - before)) + Removed(Ranked(nodes, before - after))
  }

  predicate IsHead(head: EventData) { head.JevClassified? || head.ContextExpanded? }

  lemma HeadFold(s: set<NodeId>, head: EventData)
    requires IsHead(head)
    ensures ContextFold(s, [head]) == s
  {
    assert [head][1..] == [];
    assert ContextFold(ContextEvent(s, head), []) == s;
  }

  lemma ElementsRanked(nodes: map<NodeId, Node>, s: set<NodeId>)
    requires s <= nodes.Keys
    ensures Elements(Ranked(nodes, s)) == s
  {
    RankedMembers(nodes, s);
  }

  lemma FoldOfChange(before: set<NodeId>, head: EventData, added: seq<NodeId>, removed: seq<NodeId>)
    requires IsHead(head)
    ensures ContextFold(before, [head] + Added(added) + Removed(removed)) == before + Elements(added) - Elements(removed)
  {
    HeadFold(before, head);
    FoldConcat(before, [head], Added(added));
    FoldAdded(before, added);
    FoldConcat(before, [head] + Added(added), Removed(removed));
    FoldRemoved(before + Elements(added), removed);
  }

  lemma JoinAndLeave(before: set<NodeId>, after: set<NodeId>)
    ensures before + (after - before) - (before - after) == after
  {
  }

  lemma ChangeEventsFold(nodes: map<NodeId, Node>, before: set<NodeId>, after: set<NodeId>, head: EventData)
    requires before <= nodes.Keys && after <= nodes.Keys && IsHead(head)
    ensures ContextFold(before, ChangeEvents(nodes, before, after, head)) == after
  {
    var added, removed := Ranked(nodes, after - before), Ranked(nodes, before - after);
    assert Elements(added) == after - before by { ElementsRanked(nodes, after - before); }
    assert Elements(removed) == before - after by { ElementsRanked(nodes, before - after); }
    FoldOfChange(before, head, added, removed);
    JoinAndLeave(before, after);
  }

  lemma AddedLocal(nodes: seq<NodeId>, others: set<NodeId>)
    requires Elements(nodes) <= others
    ensures AllLocal(Added(nodes), others)
  {
    forall i | 0 <= i < |nodes| ensures nodes[i] in others {
      assert nodes[i] in Elements(nodes);
    }
  }

  lemma RemovedLocal(nodes: seq<NodeId>, others: set<NodeId>)
    ensures AllLocal(Removed(nodes), others)
  {
  }

  lemma HeadLocal(head: EventData, others: set<NodeId>)
    requires IsHead(head)
    ensures AllLocal([head], others)
  {
  }

  lemma ChangeEventsLocal(nodes: map<NodeId, Node>, before: set<NodeId>, after: set<NodeId>, head: EventData, others: set<NodeId>)
    requires before <= nodes.Keys && after <= nodes.Keys && IsHead(head) && after <= others
    ensures AllLocal(ChangeEvents(nodes, before, after, head), others)
  {
    var added, removed := Ranked(nodes, after - before), Ranked(nodes, before - after);
    ElementsRanked(nodes, after - before);
    HeadLocal(head, others);
    AddedLocal(added, others);
    RemovedLocal(removed, others);
    LocalConcat([head], Added(added), others);
    LocalConcat([head] + Added(added), Removed(removed), others);
  }

  // ---- The step ----

  /** The tables after a run's context has become `after` and the change has been announced. */
  function Changed(db: Db, run: RunId, after: map<NodeId, Source>, head: EventData): Db
    requires run in db.context && db.context[run].Keys <= db.nodes.Keys && after.Keys <= db.nodes.Keys
  {
    WithEvents(db.(context := db.context[run := after]), run, ChangeEvents(db.nodes, db.context[run].Keys, after.Keys, head))
  }

  lemma ChangeContextAppends(db: Db, run: RunId, after: map<NodeId, Source>, head: EventData)
    requires IsRunning(db, run) && run in db.context && db.context[run].Keys <= db.nodes.Keys
    requires after.Keys <= ProjectNodes(db.nodes, db.runs[run].project)
    ensures ChangeContext(db, run, after, head)
      == AppendEvents(db.(context := db.context[run := after]), run, ChangeEvents(db.nodes, db.context[run].Keys, after.Keys, head))
  {
    ReplacesContext(db, run, after);
  }

  lemma ChangesContextTo(db: Db, run: RunId, after: map<NodeId, Source>, head: EventData)
    requires IsRunning(db, run) && run in db.context && RunHolds(db, run, db.context[run].Keys) && IsHead(head)
    requires after.Keys <= Others(db, run)
    ensures db.context[run].Keys <= db.nodes.Keys && after.Keys <= db.nodes.Keys
    ensures ChangeContext(db, run, after, head) == Ok(Changed(db, run, after, head))
    ensures run in Changed(db, run, after, head).runs && RunHolds(Changed(db, run, after, head), run, after.Keys)
  {
    var before := db.context[run].Keys;
    var data := ChangeEvents(db.nodes, before, after.Keys, head);
    ChangeContextAppends(db, run, after, head);
    assert AllLocal(data, Others(db, run)) by { ChangeEventsLocal(db.nodes, before, after.Keys, head, Others(db, run)); }
    assert ContextFold(before, data) == after.Keys by { ChangeEventsFold(db.nodes, before, after.Keys, head); }
    EventsKeepRun(db.(context := db.context[run := after]), run, before, data);
  }

  lemma ChangedKeepsRest(db: Db, run: RunId, after: map<NodeId, Source>, head: EventData)
    requires Domains(db) && run in db.runs && IsHead(head)
    requires db.context[run].Keys <= db.nodes.Keys && after.Keys <= db.nodes.Keys
    ensures var db' := Changed(db, run, after, head);
      db' == db.(context := db.context[run := after], events := db'.events) && Domains(db')
      && ReplayNodes(db'.events) == ReplayNodes(db.events) && ReplayEdges(db'.events, db.runs) == ReplayEdges(db.events, db.runs)
      && forall r | r != run :: Log(db'.events, r) == Log(db.events, r)
  {
    ChangeEventsLocal(db.nodes, db.context[run].Keys, after.Keys, head, after.Keys);
    EventsKeepRest(db.(context := db.context[run := after]), run,
                   ChangeEvents(db.nodes, db.context[run].Keys, after.Keys, head), after.Keys);
  }

  lemma ContextRunsKept(db: Db, db': Db, run: RunId, after: map<NodeId, Source>)
    requires Domains(db) && RunsOk(db) && Domains(db') && run in db.runs
    requires db'.runs == db.runs && db'.nodes == db.nodes && db'.context == db.context[run := after]
    requires forall r | r != run :: Log(db'.events, r) == Log(db.events, r)
    requires RunOk(db', run)
    ensures RunsOk(db')
  {
    forall r | r in db'.runs ensures RunOk(db', r) {
      if r != run {
        assert SameRun(db, db', r);
        RunOkKept(db, db', r);
      }
    }
  }

  lemma InvAfterContext(db: Db, db': Db, run: RunId, after: map<NodeId, Source>)
    requires Inv(db) && run in db.runs
    requires db' == db.(context := db.context[run := after], events := db'.events) && Domains(db')
    requires ReplayNodes(db'.events) == ReplayNodes(db.events)
    requires ReplayEdges(db'.events, db.runs) == ReplayEdges(db.events, db.runs)
    requires RunsOk(db')
    ensures Inv(db')
  {
  }

  lemma ContextKeepsRuns(db: Db, run: RunId, after: map<NodeId, Source>, head: EventData, db': Db)
    requires Domains(db) && RunsOk(db) && IsRunning(db, run) && RunOk(db, run) && IsHead(head) && after.Keys <= Others(db, run)
    requires db.context[run].Keys <= db.nodes.Keys && after.Keys <= db.nodes.Keys && db' == Changed(db, run, after, head)
    requires db' == db.(context := db.context[run := after], events := db'.events) && Domains(db')
    requires forall r | r != run :: Log(db'.events, r) == Log(db.events, r)
    ensures ChangeContext(db, run, after, head) == Ok(db') && RunsOk(db')
  {
    ChangesContextTo(db, run, after, head);
    ContextRunsKept(db, db', run, after);
  }

  /** Changing a running run's context to any nodes of its project but its task never fails, and keeps
      the invariant. */
  lemma ContextKeepsInv(db: Db, run: RunId, after: map<NodeId, Source>, head: EventData, db': Db)
    requires Inv(db) && IsRunning(db, run) && RunOk(db, run) && IsHead(head) && after.Keys <= Others(db, run)
    requires db.context[run].Keys <= db.nodes.Keys && after.Keys <= db.nodes.Keys && db' == Changed(db, run, after, head)
    ensures ChangeContext(db, run, after, head) == Ok(db') && Inv(db')
    ensures db' == db.(context := db.context[run := after], events := db'.events)
  {
    ChangedKeepsRest(db, run, after, head);
    ContextKeepsRuns(db, run, after, head, db');
    InvAfterContext(db, db', run, after);
  }
}
