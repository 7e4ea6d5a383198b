/** A run's task is the message it was started with, in every reachable store; so compiling its IR
    always succeeds. */
module Tasks {
  import opened Common
  import opened Records
  import opened Database
  import opened Invariants
  import opened ContextSteps
  import opened RunSteps
  import opened Frames
  import opened Responses
  import opened Histories
  import opened Reachable
  import opened Turns
  import opened Compilation
  import Fitting

  /** The task node is a user's turn with the recorded message. */
  predicate TaskTold(nodes: map<NodeId, Node>, log: seq<Event>) {
    Opened(log) && TaskOf(log) in nodes && IsUserTurn(nodes[TaskOf(log)])
    && nodes[TaskOf(log)].payload.text == log[1].data.text
  }

  lemma ToldStaysTold(nodes: map<NodeId, Node>, log: seq<Event>, more: map<NodeId, Node>, longer: seq<Event>)
    requires TaskTold(nodes, log) && NodesGrow(nodes, more) && IsPrefix(log, longer) && Opened(longer)
    ensures TaskTold(more, longer)
  {
    assert longer[1] == log[1];
  }

  lemma StartedLog(db: Db, conversation: ConversationId, run: RunId, task: NodeId, text: string, now: Instant)
    requires EventsOfRuns(db.events, db.runs) && conversation in db.conversations && run !in db.runs
    requires CarriedFrom(db, db.runs[run := NewRun(db, conversation, now)], run).Keys <= db.nodes.Keys
    ensures var log := Log(Started(db, conversation, run, task, text, now).events, run);
      |log| == 3 && log[1].data == MessageRecorded(task, text)
  {
    var db' := Started(db, conversation, run, task, text, now);
    var e := Opening(run, task, text, PreviousRun(db'.runs, run), Ranked(db'.nodes, CarriedFrom(db, db'.runs, run).Keys));
    NoEventsYet(db.events, db.runs, run);
    LogOpening(db.events, e[0], e[1], e[2], run);
  }

  lemma StartTells(db: Db, step: Step, note: string -> string)
    requires Inv(db) && step.Start? && Outcome(db, step, note).Ok?
    ensures var db' := Outcome(db, step, note).value; TaskTold(db'.nodes, Log(db'.events, step.started))
  {
    StartsRun(db, step.thread, step.started, step.task, step.text, step.at);
    var db' := Started(db, step.thread, step.started, step.task, step.text, step.at);
    StartedLog(db, step.thread, step.started, step.task, step.text, step.at);
    StartKeepsInv(db, step.thread, step.started, step.task, step.text, step.at, db');
    assert RunOk(db', step.started);
  }

  /** A run that a step brings about was started by it. */
  lemma NewRunIsStarted(db: Db, step: Step, note: string -> string, r: RunId)
    requires Inv(db) && Permitted(db, step) && Outcome(db, step, note).Ok?
    requires r !in db.runs && r in Outcome(db, step, note).value.runs
    ensures step.Start? && step.started == r
  {
    StepKept(db, step, note);
    NewRunIsOwn(db, step, Outcome(db, step, note).value, r);
    if !step.Start? {
      OwnIsRunning(db, step, note);
    }
  }

  lemma NewRunIsOwn(db: Db, step: Step, db': Db, r: RunId)
    requires ChangesOnly(db, step, db') && r !in db.runs && r in db'.runs
    ensures RunOf(step) == Some(r)
  {
  }

  lemma OwnIsRunning(db: Db, step: Step, note: string -> string)
    requires Permitted(db, step) && Outcome(db, step, note).Ok? && RunOf(step).Some? && !step.Start?
    ensures IsRunning(db, RunOf(step).value)
  {
  }

  lemma TellsAfter(db: Db, step: Step, note: string -> string, r: RunId)
    requires Inv(db) && r in Apply(db, step, note).runs && (r in db.runs ==> TaskTold(db.nodes, Log(db.events, r)))
    ensures TaskTold(Apply(db, step, note).nodes, Log(Apply(db, step, note).events, r))
  {
    var db' := Apply(db, step, note);
    ApplyKept(db, step, note);
    assert RunOk(db', r);
    if r in db.runs {
      StepGrows(db, step, note);
      LogsGrow(db, db', r);
      ToldStaysTold(db.nodes, Log(db.events, r), db'.nodes, Log(db'.events, r));
    } else {
      NewRunIsStarted(db, step, note, r);
      StartTells(db, step, note);
    }
  }

  /** In every reachable store, every run's task node is the message it was started with. */
  lemma {:induction false} TasksTold(steps: seq<Step>, note: string -> string, r: RunId)
    requires r in Execute(EMPTY, steps, note).runs
    ensures var db := Execute(EMPTY, steps, note); TaskTold(db.nodes, Log(db.events, r))
    decreases |steps|
  {
    if steps != [] {
      var init := steps[..|steps| - 1];
      AlwaysInv(init, note);
      if r in Execute(EMPTY, init, note).runs {
        TasksTold(init, note, r);
      }
      TellsAfter(Execute(EMPTY, init, note), steps[|steps| - 1], note, r);
    }
  }

  lemma CompilesWhenTold(db: Db, r: RunId, tools: seq<string>, h: History, note: string -> string)
    requires r in db.runs && r in db.context && RunOk(db, r) && TaskTold(db.nodes, Log(db.events, r))
    ensures Compile(db, r, TaskOf(Log(db.events, r)), tools, h, note).Ok?
    ensures Compile(db, r, TaskOf(Log(db.events, r)), tools, h, note).value.message == Log(db.events, r)[1].data.text
  {
  }

  /** Compiling the IR of a run succeeds in every reachable store, whatever the history it is given,
      and the task it shows is the run's message. */
  lemma CompileSucceeds(steps: seq<Step>, note: string -> string, r: RunId, tools: seq<string>, h: History)
    requires r in Execute(EMPTY, steps, note).runs
    ensures var db := Execute(EMPTY, steps, note);
      TaskTold(db.nodes, Log(db.events, r)) && Compile(db, r, TaskOf(Log(db.events, r)), tools, h, note).Ok?
      && Compile(db, r, TaskOf(Log(db.events, r)), tools, h, note).value.message == Log(db.events, r)[1].data.text
  {
    AlwaysInv(steps, note);
    TasksTold(steps, note, r);
    var db := Execute(EMPTY, steps, note);
    assert RunOk(db, r);
    CompilesWhenTold(db, r, tools, h, note);
  }

  lemma EverythingCarriedWhenTold(db: Db, run: RunId, tools: seq<string>, step: Fitting.StepInput, window: nat,
                                  text: seq<Event> -> string, note: string -> string)
    requires Inv(db) && IsRunning(db, run) && TaskTold(db.nodes, Log(db.events, run)) && step.budget.None?
    requires step.recalled == RecallEverything(Told(db, Candidates(db.runs, run, window), text))
    ensures CarriesEverything(db, run, Fitting.Fitted(db, run, TaskOf(Log(db.events, run)), tools, step, Fitting.Whole(step, window), note))
  {
    FittedWhenTold(db, run, tools, step, window, note);
    Fitting.WholeCarriesAll(db, run, TaskOf(Log(db.events, run)), tools, step, window, text, note);
  }

  lemma FittedWhenTold(db: Db, run: RunId, tools: seq<string>, step: Fitting.StepInput, window: nat, note: string -> string)
    requires Domains(db) && RunsOk(db) && run in db.runs && TaskTold(db.nodes, Log(db.events, run))
    ensures Fitting.Fitted(db, run, TaskOf(Log(db.events, run)), tools, step, Fitting.Whole(step, window), note).Ok?
  {
    assert RunOk(db, run);
    CompilesWhenTold(db, run, tools, Fitting.HistoryOf(step, Fitting.Whole(step, window)), note);
  }

  predicate CarriesEverything(db: Db, run: RunId, r: Result<Ir, CompileError>)
    requires run in db.runs
  {
    r.Ok? && Fitting.CarriesAllOnce(db, run, r.value)
  }

  /** So in every reachable store a run that asks for everything, with no budget to keep to, gets each
      finished turn of its project exactly once. */
  lemma EverythingAlwaysCarried(steps: seq<Step>, run: RunId, tools: seq<string>, step: Fitting.StepInput, window: nat,
                                text: seq<Event> -> string, note: string -> string)
    requires IsRunning(Execute(EMPTY, steps, note), run) && step.budget.None?
    requires step.recalled
      == RecallEverything(Told(Execute(EMPTY, steps, note), Candidates(Execute(EMPTY, steps, note).runs, run, window), text))
    ensures var db := Execute(EMPTY, steps, note);
      TaskTold(db.nodes, Log(db.events, run))
      && CarriesEverything(db, run, Fitting.Fitted(db, run, TaskOf(Log(db.events, run)), tools, step, Fitting.Whole(step, window), note))
  {
    AlwaysInv(steps, note);
    TasksTold(steps, note, run);
    EverythingCarriedWhenTold(Execute(EMPTY, steps, note), run, tools, step, window, text, note);
  }
}
