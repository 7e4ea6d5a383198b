/** What holds of every store that any interleaving of runs can reach, and across any stretch of it. */
module Reachable {
  import opened Common
  import opened Graph
  import opened Records
  import opened Database
  import opened Invariants
  import opened ContextSteps
  import opened RunSteps
  import opened Frames
  import opened EdgeBatches
  import opened Responses
  import opened Histories

  // ---- The invariant holds throughout ----

  lemma ApplyKept(db: Db, step: Step, note: string -> string)
    requires Inv(db)
    ensures Inv(Apply(db, step, note))
    ensures Apply(db, step, note) == db || ChangesOnly(db, step, Apply(db, step, note))
  {
    if Permitted(db, step) && Outcome(db, step, note).Ok? {
      StepKept(db, step, note);
    }
  }

  lemma {:induction false} ExecuteKept(db: Db, steps: seq<Step>, note: string -> string)
    requires Inv(db)
    ensures Inv(Execute(db, steps, note))
    decreases |steps|
  {
    if steps != [] {
      ExecuteKept(db, steps[..|steps| - 1], note);
      ApplyKept(Execute(db, steps[..|steps| - 1], note), steps[|steps| - 1], note);
    }
  }

  /** Whatever runs are started, however their transactions interleave and wherever they are cut off,
      the store keeps its invariant. */
  lemma AlwaysInv(steps: seq<Step>, note: string -> string)
    ensures Inv(Execute(EMPTY, steps, note))
  {
    EmptyInv();
    ExecuteKept(EMPTY, steps, note);
  }

  /** A whole history: numbered from 1 without gaps, opened by the start, the message and the carried
      context, and ended by a terminal event exactly when the run has finished. */
  predicate SoundHistory(log: seq<Event>, r: RunId, status: Status) {
    var n := |log|;
    n >= 3 && (forall i | 0 <= i < n :: log[i].run == r && log[i].sequence == i + 1)
    && log[0].data.RunStarted? && log[1].data.MessageRecorded? && log[2].data.ContextCarried?
    && (forall i | 0 <= i < n - 1 :: !IsTerminal(log[i].data))
    && (status == Running <==> !IsTerminal(log[n - 1].data))
    && (status == Completed <==> log[n - 1].data.RunCompleted?)
  }

  lemma HistoryIsSound(events: seq<Event>, r: RunId, run: Run)
    requires HistoryOk(Log(events, r), run)
    ensures SoundHistory(Log(events, r), r, run.status)
  {
    LogWithin(events, r);
    forall i | 0 <= i < |Log(events, r)| ensures Log(events, r)[i].run == r {
      assert Log(events, r)[i] in Log(events, r);
    }
  }

  /** In every reachable store, every run's history is sound. */
  lemma HistoriesSound(steps: seq<Step>, note: string -> string, r: RunId)
    requires r in Execute(EMPTY, steps, note).runs
    ensures var db := Execute(EMPTY, steps, note); SoundHistory(Log(db.events, r), r, db.runs[r].status)
  {
    AlwaysInv(steps, note);
    var db := Execute(EMPTY, steps, note);
    assert RunOk(db, r);
    HistoryIsSound(db.events, r, db.runs[r]);
  }

  /** A run's context is what its events say, and never holds the run's own task. */
  predicate ContextReplayed(members: set<NodeId>, log: seq<Event>, nodes: map<NodeId, Node>) {
    members == ReplayContext(log) && Opened(log) && TaskOf(log) in nodes && TaskOf(log) !in members
  }

  /** Replaying the events of every run rebuilds what the runtime wrote: the nodes, with their types
      and projects, the edges, and each run's context. */
  lemma EventsRebuildTables(steps: seq<Step>, note: string -> string)
    ensures var db := Execute(EMPTY, steps, note);
      NodesReplayed(db.nodes, db.events, db.runs) && db.edges == ReplayEdges(db.events, db.runs)
      && ContextsReplayed(db.context, db.runs, db.events, db.nodes)
  {
    AlwaysInv(steps, note);
    ContextsAre(Execute(EMPTY, steps, note));
  }

  predicate ContextsReplayed(context: map<RunId, map<NodeId, Source>>, runs: map<RunId, Run>, events: seq<Event>, nodes: map<NodeId, Node>) {
    context.Keys == runs.Keys && forall r | r in runs :: ContextReplayed(context[r].Keys, Log(events, r), nodes)
  }

  lemma RunReplayed(db: Db, r: RunId)
    requires Domains(db) && RunsOk(db) && r in db.runs
    ensures ContextReplayed(db.context[r].Keys, Log(db.events, r), db.nodes)
  {
    assert RunOk(db, r);
  }

  lemma ContextsAre(db: Db)
    requires Domains(db) && RunsOk(db)
    ensures ContextsReplayed(db.context, db.runs, db.events, db.nodes)
  {
    forall r | r in db.runs ensures ContextReplayed(db.context[r].Keys, Log(db.events, r), db.nodes) {
      RunReplayed(db, r);
    }
  }

  // ---- The graph stays inside its projects ----

  function ProjectArrows(edges: seq<Edge>, project: ProjectId): set<Arrow> {
    set e | e in edges && e.project == project :: Arrow(e.from, e.to)
  }

  lemma {:induction false} PathInProject(nodes: map<NodeId, Node>, edges: seq<Edge>, project: ProjectId, p: seq<Vertex>, a: NodeId, b: NodeId)
    requires EdgesInProjects(nodes, edges) && NodeInProject(nodes, project, a) && Connects(ArrowsOf(edges), p, a, b)
    ensures NodeInProject(nodes, project, b) && Reach(ProjectArrows(edges, project), a, b)
    decreases |p|
  {
    if |p| == 1 {
      ReachSelf(ProjectArrows(edges, project), a);
    } else {
      PathTail(ArrowsOf(edges), p, a, b);
      var e :| e in edges && Arrow(e.from, e.to) == Arrow(a, p[1]);
      assert NodeInProject(nodes, e.project, a);
      assert Arrow(a, p[1]) in ProjectArrows(edges, project);
      PathInProject(nodes, edges, project, p[1..], p[1], b);
      ReachArrow(ProjectArrows(edges, project), a, p[1]);
      ReachTrans(ProjectArrows(edges, project), a, p[1], b);
    }
  }

  /** The graph of every reachable store has no cycle and no edge between projects, so the search over
      all edges, whatever their project, decides exactly whether a path inside the project exists. */
  lemma ReachabilityIsProjectWide(steps: seq<Step>, note: string -> string, project: ProjectId, a: NodeId, b: NodeId)
    requires NodeInProject(Execute(EMPTY, steps, note).nodes, project, a)
    ensures var db := Execute(EMPTY, steps, note);
      Acyclic(ArrowsOf(db.edges)) && EdgesInProjects(db.nodes, db.edges)
      && (Reach(ArrowsOf(db.edges), a, b) <==> Reach(ProjectArrows(db.edges, project), a, b))
      && (Reach(ArrowsOf(db.edges), a, b) ==> NodeInProject(db.nodes, project, b))
  {
    AlwaysInv(steps, note);
    var db := Execute(EMPTY, steps, note);
    if p :| Connects(ArrowsOf(db.edges), p, a, b) {
      PathInProject(db.nodes, db.edges, project, p, a, b);
    }
    if Reach(ProjectArrows(db.edges, project), a, b) {
      ReachMonotonic(ProjectArrows(db.edges, project), ArrowsOf(db.edges), a, b);
    }
  }

  // ---- What steps leave alone ----

  lemma ExtendsOthers(db: Db, db': Db, run: RunId, r: RunId)
    requires Extends(db, db', run) && r != run && r in db.runs && r in db.context
    ensures SameRun(db, db', r)
  {
    ExtendsLogs(db, db', run, r);
  }

  /** A step on behalf of a run needs the run to be running, or to start it. */
  lemma OwnStep(db: Db, step: Step, note: string -> string, r: RunId)
    requires Domains(db) && RunsOk(db) && Permitted(db, step) && Outcome(db, step, note).Ok? && RunOf(step) == Some(r)
    ensures IsRunning(db, r) || r !in db.runs
  {
    if step.Start? {
      StartsRun(db, step.thread, step.started, step.task, step.text, step.at);
    }
  }

  lemma FrozenByOne(db: Db, step: Step, note: string -> string, r: RunId)
    requires Inv(db) && r in db.runs && (db.runs[r].status != Running || RunOf(step) != Some(r))
    ensures SameRun(db, Apply(db, step, note), r)
  {
    if Permitted(db, step) && Outcome(db, step, note).Ok? {
      StepKept(db, step, note);
      if RunOf(step) == Some(r) {
        OwnStep(db, step, note, r);
      } else if RunOf(step).Some? {
        ExtendsOthers(db, Outcome(db, step, note).value, RunOf(step).value, r);
      }
    }
  }

  lemma SameRunTrans(a: Db, b: Db, c: Db, r: RunId)
    requires SameRun(a, b, r) && SameRun(b, c, r)
    ensures SameRun(a, c, r)
  {
  }

  /** A finished run never changes again: its row, its history and its context are frozen. */
  lemma {:induction false} FinishedFrozen(db: Db, steps: seq<Step>, note: string -> string, r: RunId)
    requires Inv(db) && r in db.runs && db.runs[r].status != Running
    ensures SameRun(db, Execute(db, steps, note), r)
    decreases |steps|
  {
    if steps != [] {
      var init := steps[..|steps| - 1];
      FinishedFrozen(db, init, note, r);
      ExecuteKept(db, init, note);
      FrozenByOne(Execute(db, init, note), steps[|steps| - 1], note, r);
      SameRunTrans(db, Execute(db, init, note), Execute(db, steps, note), r);
    }
  }

  /** Runs do not disturb each other: whatever steps other runs take, a run's row, history and context
      are as it left them. */
  lemma {:induction false} OthersUntouched(db: Db, steps: seq<Step>, note: string -> string, r: RunId)
    requires Inv(db) && r in db.runs && forall i | 0 <= i < |steps| :: RunOf(steps[i]) != Some(r)
    ensures SameRun(db, Execute(db, steps, note), r)
    decreases |steps|
  {
    if steps != [] {
      var init := steps[..|steps| - 1];
      OthersUntouched(db, init, note, r);
      ExecuteKept(db, init, note);
      FrozenByOne(Execute(db, init, note), steps[|steps| - 1], note, r);
      SameRunTrans(db, Execute(db, init, note), Execute(db, steps, note), r);
    }
  }

  /** Nothing recorded is ever taken back. */
  predicate Grows(db: Db, db': Db) {
    NodesGrow(db.nodes, db'.nodes) && IsPrefix(db.edges, db'.edges) && IsPrefix(db.events, db'.events)
    && db.runs.Keys <= db'.runs.Keys
  }

  lemma GrowsTrans(a: Db, b: Db, c: Db)
    requires Grows(a, b) && Grows(b, c)
    ensures Grows(a, c)
  {
  }

  lemma StepGrows(db: Db, step: Step, note: string -> string)
    requires Inv(db)
    ensures Grows(db, Apply(db, step, note))
  {
    ApplyKept(db, step, note);
    var db' := Apply(db, step, note);
    if db' != db {
      ChangeGrows(db, step, db');
    }
  }

  lemma ChangeGrows(db: Db, step: Step, db': Db)
    requires ChangesOnly(db, step, db')
    ensures Grows(db, db')
  {
  }

  /** Nodes, edges and events, once recorded, stay: the graph and every history only grow. */
  lemma {:induction false} OnlyGrows(db: Db, steps: seq<Step>, note: string -> string)
    requires Inv(db)
    ensures Grows(db, Execute(db, steps, note))
    decreases |steps|
  {
    if steps != [] {
      var init := steps[..|steps| - 1];
      OnlyGrows(db, init, note);
      ExecuteKept(db, init, note);
      StepGrows(Execute(db, init, note), steps[|steps| - 1], note);
      GrowsTrans(db, Execute(db, init, note), Execute(db, steps, note));
    }
  }

  lemma LogsGrow(db: Db, db': Db, r: RunId)
    requires Grows(db, db')
    ensures IsPrefix(Log(db.events, r), Log(db'.events, r))
  {
    LogPrefix(db.events, db'.events, r);
  }

  lemma {:induction false} LogPrefix(events: seq<Event>, more: seq<Event>, r: RunId)
    requires IsPrefix(events, more)
    ensures IsPrefix(Log(events, r), Log(more, r))
    decreases |more|
  {
    if |more| > |events| {
      var init := more[..|more| - 1];
      assert events == init[..|events|];
      LogPrefix(events, init, r);
    } else {
      assert events == more;
    }
  }

  /** An IR a run compiled stays what it answers to, however far the store has moved on. */
  lemma CompiledPersists(db: Db, steps: seq<Step>, note: string -> string, run: RunId, ir: Ir)
    requires Inv(db) && CompiledFor(db, run, ir)
    ensures CompiledFor(Execute(db, steps, note), run, ir)
  {
    OnlyGrows(db, steps, note);
    ExecuteKept(db, steps, note);
    var db' := Execute(db, steps, note);
    LogsGrow(db, db', run);
    var before, after := Log(db.events, run), Log(db'.events, run);
    assert forall i | 0 <= i < |before| :: after[i] == before[i];
    assert before[0] in before;
    LogWithin(db.events, run);
    assert run in db'.runs;
    assert RunOk(db', run);
  }

  /** A validated response, applied however much later: whatever else was committed since its IR was
      compiled, the graph refuses it only as a self-loop, a duplicate or a cycle, and accepts it
      exactly when its edges as a whole fit the graph as it then is. */
  lemma ResponsesAccepted(db: Db, steps: seq<Step>, note: string -> string, run: RunId, response: Response, ir: Ir,
                          ids: seq<nat>, now: Instant)
    requires Inv(db) && CompiledFor(db, run, ir) && ValidResponse(response, ir) && |ids| == |response.emissions|
    requires IsRunning(Execute(db, steps, note), run)
    requires NodeIdsFree(Execute(db, steps, note).nodes, response.emissions, ids)
    requires EdgeIdsFree(Execute(db, steps, note).edges, response.emissions, ids)
    ensures EndpointsResolve(RefsOf(response.emissions), response.emissions)
    ensures var r := ApplyResponse(Execute(db, steps, note), run, response, ids, now);
      (r.Ok? <==> Fits(Execute(db, steps, note).edges, EdgesOf(response, ids)))
      && (r.Err? ==> r.error.SelfLoop? || r.error.DuplicateEdge? || r.error.Cycle?)
  {
    var db' := Execute(db, steps, note);
    ExecuteKept(db, steps, note);
    CompiledPersists(db, steps, note, run, ir);
    assert RunOk(db', run);
    AcceptsExactly(db', run, response, ir, ids, now);
  }

  // ---- Stopping a run ----

  lemma FreesProject(db: Db, run: RunId, code: ErrorCode, db': Db)
    requires OneRunning(db.runs) && IsRunning(db, run) && FailedIn(db, run, code, db')
    ensures !HasRunning(db', db.runs[run].project)
  {
  }

  lemma FailApplies(db: Db, run: RunId, evidence: Option<EventData>, code: ErrorCode, message: string, note: string -> string)
    requires FailWith(db, run, evidence, code, message).Ok? && (evidence.Some? ==> IsEvidence(evidence.value))
    ensures FailWith(db, run, evidence, code, message).value == Apply(db, Fail(run, evidence, code, message), note)
  {
  }

  lemma ExecuteAppend(db: Db, steps: seq<Step>, step: Step, note: string -> string)
    ensures Execute(db, steps + [step], note) == Apply(Execute(db, steps, note), step, note)
  {
    assert (steps + [step])[..|steps|] == steps;
  }

  /** Wherever a run is stopped, failing it succeeds, keeps the invariant, disturbs nothing it or
      anyone committed, and frees its project for the next run. */
  lemma StopAnywhere(steps: seq<Step>, note: string -> string, run: RunId, evidence: Option<EventData>, code: ErrorCode, message: string)
    requires IsRunning(Execute(EMPTY, steps, note), run) && (evidence.Some? ==> IsEvidence(evidence.value))
    ensures var db, db' := Execute(EMPTY, steps, note), Execute(EMPTY, steps + [Fail(run, evidence, code, message)], note);
      FailWith(db, run, evidence, code, message) == Ok(db') && FailedIn(db, run, code, db') && !HasRunning(db', db.runs[run].project)
  {
    AlwaysInv(steps, note);
    var db := Execute(EMPTY, steps, note);
    FailAlways(db, run, evidence, code, message);
    FreesProject(db, run, code, FailWith(db, run, evidence, code, message).value);
    FailApplies(db, run, evidence, code, message, note);
    ExecuteAppend(EMPTY, steps, Fail(run, evidence, code, message), note);
  }
}
