/** What a transaction on behalf of one run may touch: it only adds, and only to that run. */
module Frames {
  import opened Common
  import opened Records
  import opened Database
  import opened Invariants
  import opened ContextSteps
  import opened RunSteps

  predicate IsPrefix<T(==)>(a: seq<T>, b: seq<T>) { |a| <= |b| && a == b[..|a|] }

  /** Nothing is ever removed from the graph or the history, and other runs are left alone. */
  predicate Extends(db: Db, db': Db, run: RunId) {
    NodesGrow(db.nodes, db'.nodes) && IsPrefix(db.edges, db'.edges)
    && IsPrefix(db.events, db'.events) && (forall i | |db.events| <= i < |db'.events| :: db'.events[i].run == run)
    && RestKept(db.runs, db'.runs, run) && RestKept(db.context, db'.context, run)
  }

  predicate RestKept<T(==)>(a: map<RunId, T>, b: map<RunId, T>, run: RunId) {
    (forall r | r in a :: r in b && (r != run ==> b[r] == a[r])) && (forall r | r in b :: r in a || r == run)
  }

  lemma ExtendsSelf(db: Db, run: RunId)
    ensures Extends(db, db, run)
  {
  }

  lemma ExtendsTrans(a: Db, b: Db, c: Db, run: RunId)
    requires Extends(a, b, run) && Extends(b, c, run)
    ensures Extends(a, c, run)
  {
    forall i | |a.events| <= i < |c.events| ensures c.events[i].run == run {
      if i < |b.events| {
        assert c.events[i] == b.events[i];
      }
    }
  }

  lemma {:induction false} LogOfMore(events: seq<Event>, more: seq<Event>, run: RunId, r: RunId)
    requires forall i | 0 <= i < |more| :: more[i].run == run
    ensures Log(events + more, r) == if r == run then Log(events, r) + more else Log(events, r)
    decreases |more|
  {
    if more == [] {
      assert events + more == events && Log(events, r) + more == Log(events, r);
    } else {
      var init, last := more[..|more| - 1], more[|more| - 1];
      LogOfMore(events, init, run, r);
      LogAppend(events + init, last, r);
      assert events + more == (events + init) + [last] && init + [last] == more;
      assert Log(events, r) + init + [last] == Log(events, r) + more;
    }
  }

  /** Other runs see no difference, and the run's own history only grows. */
  lemma ExtendsLogs(db: Db, db': Db, run: RunId, r: RunId)
    requires Extends(db, db', run)
    ensures r != run ==> Log(db'.events, r) == Log(db.events, r)
    ensures IsPrefix(Log(db.events, r), Log(db'.events, r))
  {
    var more := db'.events[|db.events|..];
    assert db.events + more == db'.events;
    assert forall i | 0 <= i < |more| :: more[i] == db'.events[|db.events| + i];
    LogOfMore(db.events, more, run, r);
  }

  // ---- Each operation only extends ----

  lemma AppendExtends(db: Db, run: RunId, d: EventData)
    requires AppendEvent(db, run, d).Ok?
    ensures IsRunning(db, run) && IsRunning(AppendEvent(db, run, d).value, run)
    ensures Extends(db, AppendEvent(db, run, d).value, run)
    ensures AppendEvent(db, run, d).value == db.(events := AppendEvent(db, run, d).value.events)
  {
  }

  lemma {:induction false} AppendsExtend(db: Db, run: RunId, data: seq<EventData>)
    requires AppendEvents(db, run, data).Ok?
    ensures var db' := AppendEvents(db, run, data).value; Extends(db, db', run) && db' == db.(events := db'.events)
    decreases |data|
  {
    if data == [] {
      ExtendsSelf(db, run);
    } else {
      AppendExtends(db, run, data[0]);
      var db1 := AppendEvent(db, run, data[0]).value;
      AppendsExtend(db1, run, data[1..]);
      ExtendsTrans(db, db1, AppendEvents(db, run, data).value, run);
    }
  }

  lemma ReplaceExtends(db: Db, run: RunId, rows: seq<Member>)
    requires ReplaceContext(db, run, rows).Ok?
    ensures IsRunning(db, run) && Extends(db, ReplaceContext(db, run, rows).value, run)
  {
  }

  lemma ChangeExtends(db: Db, run: RunId, after: map<NodeId, Source>, head: EventData)
    requires ChangeContext(db, run, after, head).Ok?
    ensures IsRunning(db, run) && Extends(db, ChangeContext(db, run, after, head).value, run)
  {
    ReplaceExtends(db, run, Listing(after));
    var mid := ReplaceContext(db, run, Listing(after)).value;
    AppendsExtend(mid, run, [head] + Added(Ranked(db.nodes, after.Keys - ContextOf(db, run).Keys))
                            + Removed(Ranked(db.nodes, ContextOf(db, run).Keys - after.Keys)));
    ExtendsTrans(db, mid, ChangeContext(db, run, after, head).value, run);
  }

  lemma NodeExtends(db: Db, run: RunId, id: NodeId, nodeType: NodeType, payload: Payload, ref: string, now: Instant)
    requires run in db.runs && AnnounceNode(db, run, id, nodeType, payload, ref, now).Ok?
    ensures IsRunning(db, run) && Extends(db, AnnounceNode(db, run, id, nodeType, payload, ref, now).value, run)
    ensures AnnounceNode(db, run, id, nodeType, payload, ref, now).value.edges == db.edges
    ensures IsRunning(AnnounceNode(db, run, id, nodeType, payload, ref, now).value, run)
    ensures NodeInProject(AnnounceNode(db, run, id, nodeType, payload, ref, now).value.nodes, db.runs[run].project, id)
  {
    var mid := InsertNode(db, db.runs[run].project, id, nodeType, payload, now).value;
    assert Extends(db, mid, run);
    AppendExtends(mid, run, DagNodeCreated(id, nodeType, ref));
    ExtendsTrans(db, mid, AnnounceNode(db, run, id, nodeType, payload, ref, now).value, run);
  }

  lemma EdgeExtends(db: Db, run: RunId, id: EdgeId, from: NodeId, to: NodeId, edgeType: EdgeType)
    requires run in db.runs && AnnounceEdge(db, run, id, from, to, edgeType).Ok?
    ensures IsRunning(db, run) && Extends(db, AnnounceEdge(db, run, id, from, to, edgeType).value, run)
    ensures AnnounceEdge(db, run, id, from, to, edgeType).value.nodes == db.nodes
    ensures AnnounceEdge(db, run, id, from, to, edgeType).value.edges
      == db.edges + [Edge(id, db.runs[run].project, from, to, edgeType)]
    ensures IsRunning(AnnounceEdge(db, run, id, from, to, edgeType).value, run)
  {
    var mid := InsertEdge(db, db.runs[run].project, id, from, to, edgeType).value;
    assert Extends(db, mid, run);
    AppendExtends(mid, run, DagEdgeCreated(id, from, to, edgeType));
    ExtendsTrans(db, mid, AnnounceEdge(db, run, id, from, to, edgeType).value, run);
  }

  lemma FinishExtends(db: Db, run: RunId, d: EventData, status: Status, code: Option<ErrorCode>)
    requires AppendEvent(db, run, d).Ok?
    ensures IsRunning(db, run) && Extends(db, Finish(AppendEvent(db, run, d).value, run, status, code), run)
  {
    AppendExtends(db, run, d);
  }

  lemma StartedExtends(db: Db, conversation: ConversationId, run: RunId, task: NodeId, text: string, now: Instant)
    requires conversation in db.conversations && run !in db.runs && run !in db.context && task !in db.nodes
    requires CarriedFrom(db, db.runs[run := NewRun(db, conversation, now)], run).Keys <= db.nodes.Keys
    ensures Extends(db, Started(db, conversation, run, task, text, now), run)
  {
  }

  lemma StartExtends(db: Db, conversation: ConversationId, run: RunId, task: NodeId, text: string, now: Instant, db': Db)
    requires Domains(db) && RunsOk(db) && StartRun(db, conversation, run, task, text, now) == Ok(db')
    ensures run !in db.runs && Extends(db, db', run)
  {
    StartsRun(db, conversation, run, task, text, now);
    StartedExtends(db, conversation, run, task, text, now);
  }
}
