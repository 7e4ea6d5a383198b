/** How runs end: completing is a step of its own, so a run may be stopped after its reply was applied
    and before it is completed. */
module Endings {
  import opened Common
  import opened Graph
  import opened Records
  import opened Database
  import opened Invariants
  import opened ContextSteps
  import opened RunSteps
  import opened Frames
  import opened EdgeBatches
  import opened Responses
  import opened Histories
  import opened Reachable
  import opened Scenario
  import opened Tasks
  import Compilation

  predicate Completes(step: Step, run: RunId) { step.Complete? && step.run == run }

  predicate Fails(step: Step, run: RunId) {
    step.Fail? && step.run == run && (step.evidence.Some? ==> IsEvidence(step.evidence.value))
  }

  /** A running run's status after `steps`: what the first step that ends it makes of it. */
  function StatusAfter(steps: seq<Step>, run: RunId): Status {
    if steps == [] then Running
    else
      var before := StatusAfter(steps[..|steps| - 1], run);
      var last := steps[|steps| - 1];
      if before != Running then before
      else if Completes(last, run) then Completed
      else if Fails(last, run) then Failed
      else Running
  }

  /** Any other step of the run leaves its row alone. */
  lemma OwnRowKept(db: Db, step: Step, note: string -> string, run: RunId)
    requires Inv(db) && IsRunning(db, run) && RunOf(step) == Some(run) && !step.Complete? && !step.Fail? && !step.Start?
    requires Permitted(db, step) && Outcome(db, step, note).Ok?
    ensures Outcome(db, step, note).value.runs == db.runs
  {
    if step.Classify? || step.Expand? {
      ContextRowsKept(db, step, note);
    } else if step.Respond? {
      KnownResolve(RefsOf(step.response.emissions), Visible(step.ir), step.response.emissions);
      ReplyKeepsRows(db, step.run, step.response, step.ids, step.at);
    } else {
      EventRowsKept(db, step, note);
    }
  }

  lemma EventRowsKept(db: Db, step: Step, note: string -> string)
    requires (step.Ask? || step.CompileIr? || step.Note? || step.Remember?) && Permitted(db, step) && Outcome(db, step, note).Ok?
    ensures Outcome(db, step, note).value.runs == db.runs
  {
  }

  lemma ReplyKeepsRows(db: Db, run: RunId, response: Response, ids: seq<nat>, now: Instant)
    requires |ids| == |response.emissions| && EndpointsResolve(RefsOf(response.emissions), response.emissions)
    requires ApplyResponse(db, run, response, ids, now).Ok?
    ensures ApplyResponse(db, run, response, ids, now).value.runs == db.runs
  {
    CreateNodesExtends(AppendEvent(db, run, ResponseValidated(response)).value, run, response.emissions, ids, now);
  }

  lemma ContextRowsKept(db: Db, step: Step, note: string -> string)
    requires Inv(db) && (step.Classify? || step.Expand?) && Permitted(db, step) && Outcome(db, step, note).Ok?
    ensures Outcome(db, step, note).value.runs == db.runs
  {
    if step.Classify? {
      ChangeKeepsRows(db, step.run, Membership(ContextOf(db, step.run), step.classification.entries), JevClassified(step.classification));
    } else {
      var task, before := TaskOf(Log(db.events, step.run)), ContextOf(db, step.run);
      var more := map n | n in ProjectNodes(db.nodes, db.runs[step.run].project) && n != task && n !in before :: Jev;
      ChangeKeepsRows(db, step.run, before + more, ContextExpanded);
    }
  }

  lemma ChangeKeepsRows(db: Db, run: RunId, after: map<NodeId, Source>, head: EventData)
    requires ChangeContext(db, run, after, head).Ok?
    ensures ChangeContext(db, run, after, head).value.runs == db.runs
  {
    AppendsExtend(ReplaceContext(db, run, Listing(after)).value, run,
                  [head] + Added(Ranked(db.nodes, after.Keys - ContextOf(db, run).Keys))
                  + Removed(Ranked(db.nodes, ContextOf(db, run).Keys - after.Keys)));
  }

  lemma EndsAsTold(db: Db, step: Step, note: string -> string, run: RunId)
    requires Inv(db) && IsRunning(db, run) && RunOf(step) == Some(run) && (step.Complete? || step.Fail?)
    ensures run in Apply(db, step, note).runs
    ensures Apply(db, step, note).runs[run].status == StatusOfOne(step, run)
  {
    if step.Complete? {
      assert RunOk(db, run);
      CompleteKeepsInv(db, run);
      CompleteApplies(db, run, note);
    } else if Permitted(db, step) {
      FailAlways(db, run, step.evidence, step.code, step.message);
      FailApplies(db, run, step.evidence, step.code, step.message, note);
    }
  }

  lemma CompleteApplies(db: Db, run: RunId, note: string -> string)
    requires CompleteRun(db, run).Ok?
    ensures Apply(db, Complete(run), note) == CompleteRun(db, run).value
  {
  }

  function StatusOfOne(step: Step, run: RunId): Status {
    if Completes(step, run) then Completed else if Fails(step, run) then Failed else Running
  }

  lemma StepStatus(db: Db, step: Step, note: string -> string, run: RunId)
    requires Inv(db) && IsRunning(db, run)
    ensures run in Apply(db, step, note).runs
    ensures Apply(db, step, note).runs[run].status == StatusOfOne(step, run)
  {
    if RunOf(step) != Some(run) {
      FrozenByOne(db, step, note, run);
    } else if step.Complete? || step.Fail? {
      EndsAsTold(db, step, note, run);
    } else if step.Start? {
      StartRefused(db, step, note);
    } else if Permitted(db, step) && Outcome(db, step, note).Ok? {
      OwnRowKept(db, step, note, run);
    }
  }

  lemma StartRefused(db: Db, step: Step, note: string -> string)
    requires Domains(db) && RunsOk(db) && step.Start? && step.started in db.runs
    ensures Apply(db, step, note) == db
  {
    StartsRun(db, step.thread, step.started, step.task, step.text, step.at);
  }

  /** Whatever steps are taken, a run's status is what the first step that ended it made of it. */
  lemma {:induction false} StatusIs(db: Db, steps: seq<Step>, note: string -> string, run: RunId)
    requires Inv(db) && IsRunning(db, run)
    ensures run in Execute(db, steps, note).runs
    ensures Execute(db, steps, note).runs[run].status == StatusAfter(steps, run)
    decreases |steps|
  {
    if steps != [] {
      var init, last := steps[..|steps| - 1], steps[|steps| - 1];
      StatusIs(db, init, note, run);
      ExecuteKept(db, init, note);
      if StatusAfter(init, run) == Running {
        StepStatus(Execute(db, init, note), last, note, run);
      } else {
        FrozenByOne(Execute(db, init, note), last, note, run);
      }
    }
  }

  /** Some step completes the run and none before it ends it. */
  predicate CompletedFirst(steps: seq<Step>, run: RunId) {
    exists k :: 0 <= k < |steps| && Completes(steps[k], run) && forall j | 0 <= j < k :: !Fails(steps[j], run)
  }

  lemma {:induction false} StatusByFirst(steps: seq<Step>, run: RunId)
    ensures StatusAfter(steps, run) == Running <==> forall j | 0 <= j < |steps| :: !Completes(steps[j], run) && !Fails(steps[j], run)
    ensures StatusAfter(steps, run) == Completed <==> CompletedFirst(steps, run)
    decreases |steps|
  {
    if steps != [] {
      var init := steps[..|steps| - 1];
      StatusByFirst(init, run);
      assert forall j | 0 <= j < |init| :: init[j] == steps[j];
      if k :| 0 <= k < |init| && Completes(init[k], run) && forall j | 0 <= j < k :: !Fails(init[j], run) {
        assert Completes(steps[k], run) && forall j | 0 <= j < k :: !Fails(steps[j], run);
      }
      if k :| 0 <= k < |steps| && Completes(steps[k], run) && forall j | 0 <= j < k :: !Fails(steps[j], run) {
        if k < |init| {
          assert Completes(init[k], run) && forall j | 0 <= j < k :: !Fails(init[j], run);
        }
      }
    }
  }

  /** Creating a reply's nodes and edges keeps the run going and only adds. */
  lemma CreatesOnly(db: Db, run: RunId, emissions: seq<Emission>, ids: seq<nat>, now: Instant, nodes: Result<(Db, map<string, NodeId>), StoreError>,
                    db': Db)
    requires GoodRunning(db, run) && |ids| == |emissions| && nodes == CreateNodes(db, run, emissions, ids, now) && nodes.Ok?
    requires EndpointsResolve(nodes.value.1.Keys, emissions) && run in nodes.value.0.runs
    requires CreateEdges(nodes.value.0, run, emissions, nodes.value.1, ids) == Ok(db')
    ensures GoodRunning(db', run) && Extends(db, db', run)
    ensures CreatedInProject(db'.nodes, db.runs[run].project, CreatedBy(emissions, ids))
  {
    var mid := nodes.value.0;
    CreateNodesKeepsInv(db, run, emissions, ids, now, nodes);
    CreateNodesExtends(db, run, emissions, ids, now);
    CreateEdgesKeepsInv(mid, run, emissions, nodes.value.1, ids, db');
    EdgePhase(mid, run, emissions, nodes.value.1, ids);
    ExtendsTrans(db, mid, db', run);
    CreatedGrow(mid.nodes, db'.nodes, db.runs[run].project, nodes.value.1);
  }

  lemma RecordsReply(db: Db, run: RunId, response: Response)
    requires GoodRunning(db, run)
    ensures AppendEvent(db, run, ResponseValidated(response)) == Ok(WithEvent(db, run, ResponseValidated(response)))
    ensures GoodRunning(WithEvent(db, run, ResponseValidated(response)), run)
    ensures WithEvent(db, run, ResponseValidated(response)).runs == db.runs
  {
    assert RunOk(db, run);
    AppendKeepsInv(db, run, ResponseValidated(response));
  }

  /** What an applied reply leaves: its record, and the nodes it created. */
  lemma ReplyLeaves(db: Db, run: RunId, response: Response, ids: seq<nat>, now: Instant, db': Db)
    requires GoodRunning(db, run) && |ids| == |response.emissions|
    requires EndpointsResolve(RefsOf(response.emissions), response.emissions)
    requires ApplyResponse(db, run, response, ids, now) == Ok(db')
    ensures GoodRunning(db', run) && Extends(WithEvent(db, run, ResponseValidated(response)), db', run)
    ensures CreatedInProject(db'.nodes, db.runs[run].project, CreatedBy(response.emissions, ids))
  {
    RecordsReply(db, run, response);
    var db1 := WithEvent(db, run, ResponseValidated(response));
    CreatesOnly(db1, run, response.emissions, ids, now, CreateNodes(db1, run, response.emissions, ids, now), db');
  }

  predicate Holds(log: seq<Event>, d: EventData) { exists i :: 0 <= i < |log| && log[i].data == d }

  lemma HoldsLonger(db: Db, run: RunId, d: EventData, db': Db)
    requires Extends(WithEvent(db, run, d), db', run)
    ensures Holds(Log(db'.events, run), d)
  {
    LogAppend(db.events, NextRow(db, run, d), run);
    ExtendsLogs(WithEvent(db, run, d), db', run, run);
    assert Log(db'.events, run)[|Log(db.events, run)|].data == d;
  }

  lemma HoldsStill(db: Db, db': Db, run: RunId, d: EventData)
    requires Grows(db, db') && Holds(Log(db.events, run), d)
    ensures Holds(Log(db'.events, run), d)
  {
    LogsGrow(db, db', run);
    var i :| 0 <= i < |Log(db.events, run)| && Log(db.events, run)[i].data == d;
    assert Log(db'.events, run)[i].data == d;
  }

  /** The witness: from any store where a run's reply is applied, stopping the run before it is
      completed leaves a failed run whose reply, nodes and edges stay. */
  lemma StoppedAfterReply(db: Db, run: RunId, response: Response, ids: seq<nat>, now: Instant, replied: Db, message: string)
    requires GoodRunning(db, run) && |ids| == |response.emissions|
    requires EndpointsResolve(RefsOf(response.emissions), response.emissions)
    requires ApplyResponse(db, run, response, ids, now) == Ok(replied)
    ensures GoodRunning(replied, run) && FailWith(replied, run, None, Cancelled, message).Ok?
    ensures var stopped := FailWith(replied, run, None, Cancelled, message).value;
      Inv(stopped) && run in stopped.runs && stopped.runs[run].status == Failed
      && stopped.nodes == replied.nodes && stopped.edges == replied.edges
      && Holds(Log(stopped.events, run), ResponseValidated(response))
  {
    ReplyLeaves(db, run, response, ids, now, replied);
    FailAlways(replied, run, None, Cancelled, message);
    var stopped := FailWith(replied, run, None, Cancelled, message).value;
    ExtendsTrans(WithEvent(db, run, ResponseValidated(response)), replied, stopped, run);
    HoldsLonger(db, run, ResponseValidated(response), stopped);
  }

  /** The condition: once a reply has been applied, the run is completed with it exactly when completing
      it comes before failing it, whatever else happens. */
  lemma CompletedExactly(db: Db, run: RunId, response: Response, ids: seq<nat>, now: Instant, replied: Db, steps: seq<Step>,
                         note: string -> string)
    requires GoodRunning(db, run) && |ids| == |response.emissions|
    requires EndpointsResolve(RefsOf(response.emissions), response.emissions)
    requires ApplyResponse(db, run, response, ids, now) == Ok(replied)
    ensures var end := Execute(replied, steps, note);
      run in end.runs && (end.runs[run].status == Completed <==> CompletedFirst(steps, run))
      && Grows(replied, end) && Holds(Log(end.events, run), ResponseValidated(response))
  {
    ReplyLeaves(db, run, response, ids, now, replied);
    StatusIs(replied, steps, note, run);
    StatusByFirst(steps, run);
    OnlyGrows(replied, steps, note);
    HoldsLonger(db, run, ResponseValidated(response), replied);
    HoldsStill(replied, Execute(replied, steps, note), run, ResponseValidated(response));
  }

  // ---- A store where it happens ----

  /** A reply that creates one node. */
  const ONE_NODE: Response := Response("done", [EmitNode("a", TaskNode, Opaque("{}"))], [])

  const HISTORY: Compilation.History := Compilation.History(8, [], {}, None)

  function FirstIr(): Step { CompileIr(0, [], HISTORY) }

  lemma CompileApplies(db: Db, run: RunId, tools: seq<string>, h: Compilation.History, note: string -> string, ir: Ir)
    requires IsRunning(db, run) && Opened(Log(db.events, run))
    requires Compilation.Compile(db, run, TaskOf(Log(db.events, run)), tools, h, note) == Ok(ir)
    requires AppendEvent(db, run, IrCompiled(ir)).Ok?
    ensures Apply(db, CompileIr(run, tools, h), note) == AppendEvent(db, run, IrCompiled(ir)).value
  {
  }

  lemma CompilesOnce(db: Db, run: RunId, tools: seq<string>, h: Compilation.History, note: string -> string, ir: Ir)
    requires GoodRunning(db, run) && RunOk(db, run)
    requires Compilation.Compile(db, run, TaskOf(Log(db.events, run)), tools, h, note) == Ok(ir)
    ensures AppendEvent(db, run, IrCompiled(ir)) == Ok(WithEvent(db, run, IrCompiled(ir)))
    ensures GoodRunning(WithEvent(db, run, IrCompiled(ir)), run) && CompiledFor(WithEvent(db, run, IrCompiled(ir)), run, ir)
  {
    CompileIsMid(db, run, tools, h, note);
    AppendKeepsInv(db, run, IrCompiled(ir));
    CompiledNow(db, run, ir);
  }

  lemma CompiledNow(db: Db, run: RunId, ir: Ir)
    requires run in db.runs && Opened(Log(db.events, run)) && ir.task == TaskOf(Log(db.events, run))
    ensures CompiledFor(WithEvent(db, run, IrCompiled(ir)), run, ir)
  {
    LogAppend(db.events, NextRow(db, run, IrCompiled(ir)), run);
    var log := Log(WithEvent(db, run, IrCompiled(ir)).events, run);
    assert log[|log| - 1].data == IrCompiled(ir) && log[1] == Log(db.events, run)[1];
  }

  lemma OneNodeIsValid(ir: Ir, id: NodeId)
    ensures ValidResponse(ONE_NODE, ir) && EndpointsResolve(RefsOf(ONE_NODE.emissions), ONE_NODE.emissions)
    ensures EdgesOf(ONE_NODE, [id]) == [] && "a" in CreatedBy(ONE_NODE.emissions, [id]) && CreatedBy(ONE_NODE.emissions, [id])["a"] == id
  {
    var e := ONE_NODE.emissions;
    assert e[..0] == [] && [id][..0] == [];
    assert e[0] in e && "a" in RefsOf(e);
    assert CreatedBy(e, [id]) == CreatedBy([], [])["a" := id];
    assert Batch(e, CreatedBy(e, [id]), [id]) == Batch([], CreatedBy(e, [id]), []);
  }

  lemma NoEdgesFit(nodes: map<NodeId, Node>, edges: seq<Edge>)
    requires GraphOk(nodes, edges)
    ensures Fits(edges, [])
  {
    assert ArrowsOf(edges) + BatchArrows([]) == ArrowsOf(edges);
  }

  lemma OneNodeAccepted(db: Db, run: RunId, ir: Ir, id: NodeId, now: Instant)
    requires GoodRunning(db, run) && RunOk(db, run) && CompiledFor(db, run, ir) && id !in db.nodes
    ensures EndpointsResolve(RefsOf(ONE_NODE.emissions), ONE_NODE.emissions)
    ensures ApplyResponse(db, run, ONE_NODE, [id], now).Ok? && id in ApplyResponse(db, run, ONE_NODE, [id], now).value.nodes
  {
    OneNodeIsValid(ir, id);
    NoEdgesFit(db.nodes, db.edges);
    AcceptsExactly(db, run, ONE_NODE, ir, [id], now);
    ReplyLeaves(db, run, ONE_NODE, [id], now, ApplyResponse(db, run, ONE_NODE, [id], now).value);
  }

  lemma RespondApplies(db: Db, run: RunId, ir: Ir, response: Response, ids: seq<nat>, now: Instant, note: string -> string)
    requires IsRunning(db, run) && CompiledFor(db, run, ir) && ValidResponse(response, ir) && |ids| == |response.emissions|
    requires EndpointsResolve(RefsOf(response.emissions), response.emissions) && ApplyResponse(db, run, response, ids, now).Ok?
    ensures Apply(db, Respond(run, ir, response, ids, now), note) == ApplyResponse(db, run, response, ids, now).value
  {
  }

  lemma CompilesTo(db: Db, run: RunId, tools: seq<string>, h: Compilation.History, note: string -> string) returns (ir: Ir)
    requires GoodRunning(db, run) && TaskTold(db.nodes, Log(db.events, run))
    ensures var db' := Apply(db, CompileIr(run, tools, h), note); GoodRunning(db', run) && CompiledFor(db', run, ir) && db'.nodes == db.nodes
  {
    assert RunOk(db, run);
    CompilesWhenTold(db, run, tools, h, note);
    ir := Compilation.Compile(db, run, TaskOf(Log(db.events, run)), tools, h, note).value;
    CompilesOnce(db, run, tools, h, note, ir);
    CompileApplies(db, run, tools, h, note, ir);
  }

  lemma FirstCompiled(note: string -> string) returns (ir: Ir)
    ensures var db := Execute(EMPTY, FirstRunSteps() + [FirstIr()], note);
      GoodRunning(db, 0) && CompiledFor(db, 0, ir) && 1 !in db.nodes
  {
    FirstRun(note);
    TasksTold(FirstRunSteps(), note, 0);
    ir := CompilesTo(Execute(EMPTY, FirstRunSteps(), note), 0, [], HISTORY, note);
    ExecuteAppend(EMPTY, FirstRunSteps(), FirstIr(), note);
  }

  /** A reply, and then the run stopped. */
  function ReplyThenStop(ir: Ir, message: string): seq<Step> {
    [Respond(0, ir, ONE_NODE, [1], 0)] + [Fail(0, None, Cancelled, message)]
  }

  lemma Replies(db: Db, note: string -> string, ir: Ir) returns (replied: Db)
    requires GoodRunning(db, 0) && CompiledFor(db, 0, ir) && 1 !in db.nodes
    ensures EndpointsResolve(RefsOf(ONE_NODE.emissions), ONE_NODE.emissions)
    ensures replied == Apply(db, Respond(0, ir, ONE_NODE, [1], 0), note)
    ensures ApplyResponse(db, 0, ONE_NODE, [1], 0) == Ok(replied) && 1 in replied.nodes
  {
    assert RunOk(db, 0);
    OneNodeIsValid(ir, 1);
    OneNodeAccepted(db, 0, ir, 1, 0);
    RespondApplies(db, 0, ir, ONE_NODE, [1], 0, note);
    replied := ApplyResponse(db, 0, ONE_NODE, [1], 0).value;
  }

  /** The first run has failed, with its reply recorded and the reply's node in place. */
  predicate FailedWithReply(end: Db) {
    0 in end.runs && end.runs[0].status == Failed && 1 in end.nodes && Holds(Log(end.events, 0), ResponseValidated(ONE_NODE))
  }

  lemma FailsReplied(db: Db, replied: Db, message: string, note: string -> string)
    requires GoodRunning(db, 0) && EndpointsResolve(RefsOf(ONE_NODE.emissions), ONE_NODE.emissions)
    requires ApplyResponse(db, 0, ONE_NODE, [1], 0) == Ok(replied) && 1 in replied.nodes
    ensures FailedWithReply(Apply(replied, Fail(0, None, Cancelled, message), note))
  {
    StoppedAfterReply(db, 0, ONE_NODE, [1], 0, replied, message);
    FailApplies(replied, 0, None, Cancelled, message, note);
  }

  lemma RepliesThenFails(db: Db, ir: Ir, message: string, note: string -> string)
    requires GoodRunning(db, 0) && CompiledFor(db, 0, ir) && 1 !in db.nodes
    ensures FailedWithReply(Apply(Apply(db, Respond(0, ir, ONE_NODE, [1], 0), note), Fail(0, None, Cancelled, message), note))
  {
    var replied := Replies(db, note, ir);
    FailsReplied(db, replied, message, note);
  }

  lemma Rejoin<T>(a: seq<T>, b: seq<T>, c: seq<T>)
    ensures a + (b + c) == (a + b) + c
  {
  }

  lemma TwoSteps(db: Db, steps: seq<Step>, a: Step, b: Step, note: string -> string)
    ensures Execute(db, steps + ([a] + [b]), note) == Apply(Apply(Execute(db, steps, note), a, note), b, note)
  {
    Rejoin(steps, [a], [b]);
    ExecuteAppend(db, steps, a, note);
    ExecuteAppend(db, steps + [a], b, note);
  }

  lemma StopsAfterReply(db: Db, steps: seq<Step>, ir: Ir, message: string, note: string -> string)
    requires GoodRunning(Execute(db, steps, note), 0) && CompiledFor(Execute(db, steps, note), 0, ir) && 1 !in Execute(db, steps, note).nodes
    ensures FailedWithReply(Execute(db, steps + ReplyThenStop(ir, message), note))
  {
    RepliesThenFails(Execute(db, steps, note), ir, message, note);
    TwoSteps(db, steps, Respond(0, ir, ONE_NODE, [1], 0), Fail(0, None, Cancelled, message), note);
  }

  /** In a store that can be reached, a run is stopped between its reply and its completion: it has
      failed, and the node its reply created stays. */
  lemma StoppedBetween(note: string -> string, message: string)
    ensures exists ir :: FailedWithReply(Execute(EMPTY, FirstRunSteps() + [FirstIr()] + ReplyThenStop(ir, message), note))
  {
    var ir := FirstCompiled(note);
    StopsAfterReply(EMPTY, FirstRunSteps() + [FirstIr()], ir, message, note);
  }
}
