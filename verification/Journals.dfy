/** A running run's dealings with the store. Every transaction it makes is a step of `Histories`, other
    runs make theirs in between, and what it has recorded is the rest of its history. */
module Journals {
  import opened Common
  import opened Records
  import opened Database
  import opened Invariants
  import opened ContextSteps
  import opened RunSteps
  import opened Responses
  import opened Histories
  import opened Reachable
  import opened Announced
  import Compilation
  import Projection
  import Fitting
  import Turns
  import ToolLog
  import Storage

  // ---- The store does what the steps say ----

  function Or(r: Result<Db, StoreError>, db: Db): Db { if r.Ok? then r.value else db }

  lemma NotPermitted(db: Db, step: Step, note: string -> string)
    requires !Permitted(db, step)
    ensures Apply(db, step, note) == db
  {
  }

  lemma OpensAre(db: Db, note: string -> string)
    ensures forall p :: Apply(db, AddProject(p), note) == db.(projects := db.projects + {p})
    ensures forall p, c :: Apply(db, AddConversation(p, c), note) == Or(AddConversationTo(db, p, c), db)
  {
  }

  lemma StartIs(db: Db, conversation: ConversationId, run: RunId, task: NodeId, text: string, now: Instant, note: string -> string)
    ensures Apply(db, Start(conversation, run, task, text, now), note) == Or(StartRun(db, conversation, run, task, text, now), db)
  {
  }

  lemma AskIs(db: Db, run: RunId, tools: seq<string>, note: string -> string)
    requires Permitted(db, Ask(run, tools))
    ensures Apply(db, Ask(run, tools), note)
      == Or(AppendEvent(db, run, JevRequested(ClassificationRequest(db, run, TaskOf(Log(db.events, run)), tools))), db)
  {
  }

  lemma ClassifyIs(db: Db, run: RunId, request: Request, c: Classification, note: string -> string)
    requires Permitted(db, Classify(run, request, c))
    ensures Apply(db, Classify(run, request, c), note) == Or(ApplyClassification(db, run, c), db)
  {
  }

  lemma ExpandIs(db: Db, run: RunId, note: string -> string)
    requires Permitted(db, Expand(run))
    ensures Apply(db, Expand(run), note) == Or(ExpandContext(db, run, TaskOf(Log(db.events, run))), db)
  {
  }

  lemma CompileIs(db: Db, run: RunId, tools: seq<string>, h: Compilation.History, note: string -> string)
    requires Permitted(db, CompileIr(run, tools, h))
    ensures var ir := Compilation.Compile(db, run, TaskOf(Log(db.events, run)), tools, h, note);
      Apply(db, CompileIr(run, tools, h), note) == if ir.Err? then db else Or(AppendEvent(db, run, IrCompiled(ir.value)), db)
  {
  }

  lemma NoteIs(db: Db, run: RunId, d: EventData, note: string -> string)
    requires IsNote(d)
    ensures Apply(db, Note(run, d), note) == Or(AppendEvent(db, run, d), db)
  {
  }

  lemma RespondIs(db: Db, run: RunId, ir: Ir, response: Response, ids: seq<nat>, now: Instant, note: string -> string)
    requires Permitted(db, Respond(run, ir, response, ids, now))
    ensures EndpointsResolve(RefsOf(response.emissions), response.emissions)
    ensures Apply(db, Respond(run, ir, response, ids, now), note) == Or(ApplyResponse(db, run, response, ids, now), db)
  {
    KnownResolve(RefsOf(response.emissions), Visible(ir), response.emissions);
  }

  lemma RememberIs(db: Db, run: RunId, findings: seq<Finding>, ids: seq<nat>, refs: seq<string>, now: Instant, note: string -> string)
    requires Permitted(db, Remember(run, findings, ids, refs, now))
    ensures Apply(db, Remember(run, findings, ids, refs, now), note) == Or(RecordFindings(db, run, findings, ids, refs, now), db)
  {
  }

  lemma CompleteIs(db: Db, run: RunId, note: string -> string)
    ensures Apply(db, Complete(run), note) == Or(CompleteRun(db, run), db)
  {
  }

  lemma FailIs(db: Db, run: RunId, evidence: Option<EventData>, code: ErrorCode, message: string, note: string -> string)
    requires evidence.Some? ==> IsEvidence(evidence.value)
    ensures Apply(db, Fail(run, evidence, code, message), note) == Or(FailWith(db, run, evidence, code, message), db)
  {
  }

  method PerformOpening(store: Storage.Store, step: Step, note: string -> string)
    requires store.Valid() && (step.AddProject? || step.AddConversation? || step.Start?)
    modifies store
    ensures store.Valid() && store.State() == Apply(old(store.State()), step, note)
  {
    OpensAre(store.State(), note);
    if step.AddProject? {
      store.CreateProject(step.project);
    } else if step.AddConversation? {
      var _ := store.CreateConversation(step.home, step.conversation);
    } else {
      StartIs(store.State(), step.thread, step.started, step.task, step.text, step.at, note);
      var _ := store.Start(step.thread, step.started, step.task, step.text, step.at);
    }
  }

  method PerformContext(store: Storage.Store, step: Step, note: string -> string)
    requires store.Valid() && (step.Ask? || step.Classify? || step.Expand?) && Permitted(store.State(), step)
    modifies store
    ensures store.Valid() && store.State() == Apply(old(store.State()), step, note)
  {
    if step.Ask? {
      AskIs(store.State(), step.run, step.tools, note);
      var request := ClassificationRequest(store.State(), step.run, TaskOf(Log(store.events, step.run)), step.tools);
      var _ := store.Record(step.run, JevRequested(request));
    } else if step.Classify? {
      ClassifyIs(store.State(), step.run, step.request, step.classification, note);
      var _ := store.Classify(step.run, step.classification);
    } else {
      ExpandIs(store.State(), step.run, note);
      var _ := store.Expand(step.run, TaskOf(Log(store.events, step.run)));
    }
  }

  method PerformEvent(store: Storage.Store, step: Step, note: string -> string)
    requires store.Valid() && (step.CompileIr? || step.Note? || step.Complete? || step.Fail?) && Permitted(store.State(), step)
    modifies store
    ensures store.Valid() && store.State() == Apply(old(store.State()), step, note)
  {
    if step.CompileIr? {
      CompileIs(store.State(), step.run, step.tools, step.history, note);
      var ir := Compilation.CompileWith(store.State(), step.run, TaskOf(Log(store.events, step.run)), step.tools, step.history, note);
      if ir.Ok? { var _ := store.Record(step.run, IrCompiled(ir.value)); }
    } else if step.Note? {
      NoteIs(store.State(), step.run, step.data, note);
      var _ := store.Record(step.run, step.data);
    } else if step.Complete? {
      CompleteIs(store.State(), step.run, note);
      var _ := store.Complete(step.run);
    } else {
      FailIs(store.State(), step.run, step.evidence, step.code, step.message, note);
      var _ := store.Fail(step.run, step.evidence, step.code, step.message);
    }
  }

  method PerformGraph(store: Storage.Store, step: Step, note: string -> string)
    requires store.Valid() && (step.Respond? || step.Remember?) && Permitted(store.State(), step)
    modifies store
    ensures store.Valid() && store.State() == Apply(old(store.State()), step, note)
  {
    if step.Respond? {
      RespondIs(store.State(), step.run, step.ir, step.response, step.ids, step.at, note);
      var _ := store.Respond(step.run, step.response, step.ids, step.at);
    } else {
      RememberIs(store.State(), step.run, step.findings, step.ids, step.refs, step.at, note);
      var _ := store.Remember(step.run, step.findings, step.ids, step.refs, step.at);
    }
  }

  /** Any step, carried out on the store, does what `Histories` says. */
  method Perform(store: Storage.Store, step: Step, note: string -> string)
    requires store.Valid()
    modifies store
    ensures store.Valid() && store.State() == Apply(old(store.State()), step, note)
  {
    if step.AddProject? || step.AddConversation? || step.Start? {
      PerformOpening(store, step, note);
    } else if !Permitted(store.State(), step) {
      NotPermitted(store.State(), step, note);
    } else if step.Ask? || step.Classify? || step.Expand? {
      PerformContext(store, step, note);
    } else if step.Respond? || step.Remember? {
      PerformGraph(store, step, note);
    } else {
      PerformEvent(store, step, note);
    }
  }

  // ---- A run's record ----

  /** The IRs recorded are for the run's own task. */
  predicate ForTask(log: seq<EventData>, task: NodeId) { forall i | 0 <= i < |log| && log[i].IrCompiled? :: log[i].ir.task == task }

  /** A run being executed: the tables when it was handed over and what its history held, every step taken
      since, by it or another run, and what it has recorded. */
  datatype Account = Account(run: RunId, task: NodeId, note: string -> string, begun: Db, opening: seq<EventData>,
                             trace: seq<Step>, log: seq<EventData>)

  /** A run that has just been started, or at least is running. */
  ghost predicate Began(a: Account) {
    GoodRunning(a.begun, a.run) && Opened(Log(a.begun.events, a.run)) && TaskOf(Log(a.begun.events, a.run)) == a.task
    && a.opening == History(a.begun, a.run)
  }

  /** The tables are what the steps make of those at the start, and the run's history is its opening and then
      what it has recorded. */
  ghost predicate Tied(db: Db, a: Account) {
    db == Execute(a.begun, a.trace, a.note) && History(db, a.run) == a.opening + a.log && ForTask(a.log, a.task)
  }

  datatype Aspect = Origin | Progress

  ghost predicate Holds(aspect: Aspect, db: Db, a: Account) {
    match aspect
    case Origin => Began(a)
    case Progress => Tied(db, a)
  }

  /** The account tells the truth about the tables. */
  ghost predicate Kept(db: Db, a: Account) { forall aspect :: Holds(aspect, db, a) }

  lemma ToldSoFar(db: Db, a: Account)
    requires Kept(db, a)
    ensures History(db, a.run) == History(a.begun, a.run) + a.log
  {
    TiedIs(db, a);
  }

  lemma KeptFrom(db: Db, a: Account)
    requires Began(a) && Tied(db, a)
    ensures Kept(db, a)
  {
  }

  lemma TiedIs(db: Db, a: Account)
    requires Kept(db, a)
    ensures Began(a) && Tied(db, a)
    ensures Inv(db) && a.run in db.runs && Opened(Log(db.events, a.run)) && TaskOf(Log(db.events, a.run)) == a.task
  {
    assert Holds(Origin, db, a) && Holds(Progress, db, a);
    ExecuteKept(a.begun, a.trace, a.note);
    OnlyGrows(a.begun, a.trace, a.note);
    OpenedStays(a.begun, db, a.run);
  }

  lemma {:induction false} ExecuteConcat(db: Db, first: seq<Step>, more: seq<Step>, note: string -> string)
    ensures Execute(db, first + more, note) == Execute(Execute(db, first, note), more, note)
    decreases |more|
  {
    if more == [] {
      assert first + more == first;
    } else {
      var init, last := more[..|more| - 1], more[|more| - 1];
      ExecuteConcat(db, first, init, note);
      ExecuteAppend(db, first + init, last, note);
      assert first + more == first + init + [last];
    }
  }

  lemma OpenedStays(db: Db, db': Db, run: RunId)
    requires Grows(db, db') && run in db.runs && Inv(db') && Opened(Log(db.events, run))
    ensures run in db'.runs && Opened(Log(db'.events, run)) && TaskOf(Log(db'.events, run)) == TaskOf(Log(db.events, run))
  {
    LogsGrow(db, db', run);
    assert RunOk(db', run);
    assert Log(db'.events, run)[1] == Log(db.events, run)[1];
  }

  lemma ForTaskMore(log: seq<EventData>, more: seq<EventData>, task: NodeId)
    requires ForTask(log, task) && ForTask(more, task)
    ensures ForTask(log + more, task)
  {
  }

  /** A step of the run's own, and what it appends. */
  function With(a: Account, step: Step, more: seq<EventData>): Account { a.(trace := a.trace + [step], log := a.log + more) }

  lemma Follows(db: Db, a: Account, step: Step, more: seq<EventData>, db': Db)
    requires Tied(db, a) && Did(db, a.run, step, a.note, more, db') && ForTask(more, a.task)
    ensures Tied(db', With(a, step, more))
  {
    ExecuteAppend(a.begun, a.trace, step, a.note);
    ForTaskMore(a.log, more, a.task);
    Regroup(a.opening, a.log, more);
  }

  predicate NoneBy(steps: seq<Step>, run: RunId) { forall i | 0 <= i < |steps| :: RunOf(steps[i]) != Some(run) }

  /** Steps of others. */
  lemma FollowOthers(db: Db, a: Account, steps: seq<Step>)
    requires Kept(db, a) && NoneBy(steps, a.run)
    ensures Kept(Execute(db, steps, a.note), a.(trace := a.trace + steps))
    ensures IsRunning(Execute(db, steps, a.note), a.run) == IsRunning(db, a.run)
  {
    TiedIs(db, a);
    OthersUntouched(db, steps, a.note, a.run);
    ExecuteConcat(a.begun, a.trace, steps, a.note);
    KeptFrom(Execute(db, steps, a.note), a.(trace := a.trace + steps));
  }

  // ---- What each step appends ----

  /** The step takes the tables from `db` to `db'` and appends `more` to the run's history. */
  ghost predicate Did(db: Db, run: RunId, step: Step, note: string -> string, more: seq<EventData>, db': Db) {
    db' == Apply(db, step, note) && History(db', run) == History(db, run) + more
  }

  lemma RunningIs(db: Db, run: RunId)
    requires Inv(db) && run in db.runs
    ensures var h := History(db, run); h != [] && (IsRunning(db, run) <==> !IsTerminal(h[|h| - 1]))
  {
    assert RunOk(db, run);
    HistoryIsSound(db.events, run, db.runs[run]);
  }

  lemma NoteTells(db: Db, run: RunId, d: EventData, note: string -> string)
    requires GoodRunning(db, run) && IsNote(d)
    ensures AppendEvent(db, run, d).Ok? && Did(db, run, Note(run, d), note, [d], AppendEvent(db, run, d).value)
  {
    NoteKeepsInv(db, run, d);
    NoteIs(db, run, d, note);
    AppendTells(db, run, d);
  }

  lemma AskTells(db: Db, run: RunId, tools: seq<string>, note: string -> string)
    requires GoodRunning(db, run) && Opened(Log(db.events, run))
    ensures var d := JevRequested(ClassificationRequest(db, run, TaskOf(Log(db.events, run)), tools));
      AppendEvent(db, run, d).Ok? && Did(db, run, Ask(run, tools), note, [d], AppendEvent(db, run, d).value)
  {
    AskIs(db, run, tools, note);
    AppendTells(db, run, JevRequested(ClassificationRequest(db, run, TaskOf(Log(db.events, run)), tools)));
  }

  lemma ClassifyTells(db: Db, run: RunId, request: Request, c: Classification, note: string -> string) returns (moves: seq<EventData>)
    requires GoodRunning(db, run) && AskedFor(Log(db.events, run), request) && Projection.ValidClassification(request, c)
    ensures ApplyClassification(db, run, c).Ok? && Changes(moves)
    ensures Did(db, run, Classify(run, request, c), note, [JevClassified(c)] + moves, ApplyClassification(db, run, c).value)
  {
    assert RunOk(db, run);
    ClassifyKeepsInv(db, run, request, c);
    ClassifyIs(db, run, request, c, note);
    moves := ClassificationTells(db, run, c);
  }

  lemma ExpandTells(db: Db, run: RunId, note: string -> string) returns (moves: seq<EventData>)
    requires GoodRunning(db, run) && Opened(Log(db.events, run))
    ensures ExpandContext(db, run, TaskOf(Log(db.events, run))).Ok? && Changes(moves)
    ensures Did(db, run, Expand(run), note, [ContextExpanded] + moves, ExpandContext(db, run, TaskOf(Log(db.events, run))).value)
  {
    assert RunOk(db, run);
    ExpandKeepsInv(db, run);
    ExpandIs(db, run, note);
    moves := ExpansionTells(db, run, TaskOf(Log(db.events, run)));
  }

  lemma CompileTells(db: Db, run: RunId, tools: seq<string>, h: Compilation.History, note: string -> string, ir: Ir)
    requires GoodRunning(db, run) && Opened(Log(db.events, run))
    requires Compilation.Compile(db, run, TaskOf(Log(db.events, run)), tools, h, note) == Ok(ir)
    ensures AppendEvent(db, run, IrCompiled(ir)).Ok?
    ensures Did(db, run, CompileIr(run, tools, h), note, [IrCompiled(ir)], AppendEvent(db, run, IrCompiled(ir)).value)
    ensures ir.task == TaskOf(Log(db.events, run)) && ir.tools == tools
  {
    CompileIs(db, run, tools, h, note);
    AppendTells(db, run, IrCompiled(ir));
  }

  /** An IR in the run's record, compiled for its task, is one its history holds. */
  lemma CompiledHere(db: Db, run: RunId, task: NodeId, opening: seq<EventData>, log: seq<EventData>, ir: Ir)
    requires Opened(Log(db.events, run)) && TaskOf(Log(db.events, run)) == task
    requires History(db, run) == opening + log && ForTask(log, task) && IrCompiled(ir) in log
    ensures CompiledFor(db, run, ir)
  {
    var i :| 0 <= i < |log| && log[i] == IrCompiled(ir);
    assert History(db, run)[|opening| + i] == IrCompiled(ir);
    assert Log(db.events, run)[|opening| + i].data == IrCompiled(ir);
  }

  /** So is a request in the run's record one Jev was asked. */
  lemma AskedHere(db: Db, run: RunId, opening: seq<EventData>, log: seq<EventData>, request: Request)
    requires History(db, run) == opening + log && JevRequested(request) in log
    ensures AskedFor(Log(db.events, run), request)
  {
    var i :| 0 <= i < |log| && log[i] == JevRequested(request);
    assert History(db, run)[|opening| + i] == JevRequested(request);
    assert Log(db.events, run)[|opening| + i].data == JevRequested(request);
  }

  lemma RespondTells(db: Db, run: RunId, ir: Ir, response: Response, ids: seq<nat>, now: Instant, note: string -> string)
    requires IsRunning(db, run) && CompiledFor(db, run, ir) && ValidResponse(response, ir) && |ids| == |response.emissions|
    ensures EndpointsResolve(RefsOf(response.emissions), response.emissions)
    ensures var r := ApplyResponse(db, run, response, ids, now);
      r.Ok? ==> Did(db, run, Respond(run, ir, response, ids, now), note, ReplyEvents(response, ids), r.value)
  {
    RespondIs(db, run, ir, response, ids, now, note);
    if ApplyResponse(db, run, response, ids, now).Ok? {
      ReplyTells(db, run, response, ids, now);
    }
  }

  /** Nodes for findings, announced. */
  predicate Found(more: seq<EventData>) { forall i | 0 <= i < |more| :: more[i].DagNodeCreated? && more[i].nodeType == ObservationNode }

  lemma {:induction false} FindingEventsFound(db: Db, project: ProjectId, findings: seq<Finding>, ids: seq<nat>, refs: seq<string>)
    requires |ids| == |findings| == |refs|
    ensures Found(FindingEvents(db, project, findings, ids, refs)) && |FindingEvents(db, project, findings, ids, refs)| <= |findings|
    decreases |findings|
  {
    if findings != [] {
      var k := |findings| - 1;
      FindingEventsFound(db, project, findings[..k], ids[..k], refs[..k]);
    }
  }

  lemma RememberTells(db: Db, run: RunId, findings: seq<Finding>, ids: seq<nat>, refs: seq<string>, now: Instant, note: string -> string)
    requires IsRunning(db, run) && |ids| == |findings| == |refs|
    ensures var r := RecordFindings(db, run, findings, ids, refs, now);
      r.Ok? ==> Did(db, run, Remember(run, findings, ids, refs, now), note,
                    FindingEvents(db, db.runs[run].project, findings, ids, refs), r.value)
  {
    RememberIs(db, run, findings, ids, refs, now, note);
    if RecordFindings(db, run, findings, ids, refs, now).Ok? {
      FindingsTell(db, run, findings, ids, refs, now);
    }
  }

  lemma CompleteTells(db: Db, run: RunId, note: string -> string)
    requires GoodRunning(db, run)
    ensures CompleteRun(db, run).Ok? && Did(db, run, Complete(run), note, [RunCompleted], CompleteRun(db, run).value)
  {
    CompletesNow(db, run);
    CompleteIs(db, run, note);
    FinishTells(db, run, RunCompleted, Completed, None);
  }

  lemma CompletesNow(db: Db, run: RunId)
    requires GoodRunning(db, run)
    ensures AppendEvent(db, run, RunCompleted).Ok? && CompleteRun(db, run).Ok?
  {
  }

  /** The evidence, if there is any, and the failure. */
  function Ending(evidence: Option<EventData>, code: ErrorCode, message: string): seq<EventData> {
    (if evidence.Some? then [evidence.value] else []) + [RunFailed(code, message)]
  }

  lemma FailureTells(db: Db, run: RunId, evidence: Option<EventData>, code: ErrorCode, message: string, note: string -> string)
    requires GoodRunning(db, run) && (evidence.Some? ==> IsEvidence(evidence.value))
    ensures FailWith(db, run, evidence, code, message).Ok?
    ensures Did(db, run, Fail(run, evidence, code, message), note, Ending(evidence, code, message),
                FailWith(db, run, evidence, code, message).value)
  {
    FailAlways(db, run, evidence, code, message);
    FailIs(db, run, evidence, code, message, note);
    FailTells(db, run, evidence, code, message);
    Regroup(History(db, run), if evidence.Some? then [evidence.value] else [], [RunFailed(code, message)]);
  }

  /** The account after a step of the run's own. */
  lemma OwnFollows(db: Db, a: Account, step: Step, more: seq<EventData>, db': Db)
    requires Kept(db, a) && Did(db, a.run, step, a.note, more, db') && ForTask(more, a.task) && more != []
    ensures Kept(db', With(a, step, more)) && (IsRunning(db', a.run) <==> !IsTerminal(more[|more| - 1]))
  {
    TiedIs(db, a);
    Follows(db, a, step, more, db');
    KeptFrom(db', With(a, step, more));
    TiedIs(db', With(a, step, more));
    RunningIs(db', a.run);
    assert History(db', a.run) == a.opening + (a.log + more);
  }

  lemma ForTaskOne(d: EventData, task: NodeId)
    requires d.IrCompiled? ==> d.ir.task == task
    ensures ForTask([d], task)
  {
  }

  lemma RecordFollows(db: Db, a: Account, d: EventData)
    requires Kept(db, a) && IsRunning(db, a.run) && IsNote(d)
    ensures AppendEvent(db, a.run, d).Ok?
    ensures var db' := AppendEvent(db, a.run, d).value; IsRunning(db', a.run) && Kept(db', With(a, Note(a.run, d), [d]))
  {
    TiedIs(db, a);
    NoteTells(db, a.run, d, a.note);
    ForTaskOne(d, a.task);
    OwnFollows(db, a, Note(a.run, d), [d], AppendEvent(db, a.run, d).value);
  }

  lemma AskFollows(db: Db, a: Account, tools: seq<string>, request: Request)
    requires Kept(db, a) && IsRunning(db, a.run) && request == ClassificationRequest(db, a.run, a.task, tools)
    ensures AppendEvent(db, a.run, JevRequested(request)).Ok?
    ensures var db' := AppendEvent(db, a.run, JevRequested(request)).value;
      IsRunning(db', a.run) && Kept(db', With(a, Ask(a.run, tools), [JevRequested(request)]))
  {
    TiedIs(db, a);
    AskTells(db, a.run, tools, a.note);
    ForTaskOne(JevRequested(request), a.task);
    OwnFollows(db, a, Ask(a.run, tools), [JevRequested(request)],
               AppendEvent(db, a.run, JevRequested(request)).value);
  }

  lemma MovesForNone(head: EventData, moves: seq<EventData>, task: NodeId)
    requires (head.JevClassified? || head.ContextExpanded?) && Changes(moves)
    ensures ForTask([head] + moves, task) && !IsTerminal(([head] + moves)[|moves|])
  {
  }

  lemma ClassifyFollows(db: Db, a: Account, request: Request, c: Classification) returns (moves: seq<EventData>)
    requires Kept(db, a) && IsRunning(db, a.run)
    requires JevRequested(request) in a.log && Projection.ValidClassification(request, c)
    ensures Permitted(db, Classify(a.run, request, c)) && ApplyClassification(db, a.run, c).Ok? && Changes(moves)
    ensures var db' := ApplyClassification(db, a.run, c).value;
      IsRunning(db', a.run) && Kept(db', With(a, Classify(a.run, request, c), [JevClassified(c)] + moves))
  {
    TiedIs(db, a);
    AskedHere(db, a.run, a.opening, a.log, request);
    moves := ClassifyTells(db, a.run, request, c, a.note);
    MovesForNone(JevClassified(c), moves, a.task);
    OwnFollows(db, a, Classify(a.run, request, c), [JevClassified(c)] + moves, ApplyClassification(db, a.run, c).value);
  }

  lemma ExpandFollows(db: Db, a: Account) returns (moves: seq<EventData>)
    requires Kept(db, a) && IsRunning(db, a.run)
    ensures ExpandContext(db, a.run, a.task).Ok? && Changes(moves)
    ensures var db' := ExpandContext(db, a.run, a.task).value;
      IsRunning(db', a.run) && Kept(db', With(a, Expand(a.run), [ContextExpanded] + moves))
  {
    TiedIs(db, a);
    moves := ExpandTells(db, a.run, a.note);
    MovesForNone(ContextExpanded, moves, a.task);
    OwnFollows(db, a, Expand(a.run), [ContextExpanded] + moves, ExpandContext(db, a.run, a.task).value);
  }

  lemma CompileFollows(db: Db, a: Account, tools: seq<string>, h: Compilation.History, ir: Ir)
    requires Kept(db, a) && IsRunning(db, a.run)
    requires Compilation.Compile(db, a.run, a.task, tools, h, a.note) == Ok(ir)
    ensures AppendEvent(db, a.run, IrCompiled(ir)).Ok? && ir.task == a.task && ir.tools == tools
    ensures var db' := AppendEvent(db, a.run, IrCompiled(ir)).value;
      IsRunning(db', a.run) && Kept(db', With(a, CompileIr(a.run, tools, h), [IrCompiled(ir)]))
  {
    TiedIs(db, a);
    CompileTells(db, a.run, tools, h, a.note, ir);
    ForTaskOne(IrCompiled(ir), a.task);
    OwnFollows(db, a, CompileIr(a.run, tools, h), [IrCompiled(ir)], AppendEvent(db, a.run, IrCompiled(ir)).value);
  }

  /** What a reply creates, announced. */
  predicate Creations(more: seq<EventData>) { forall i | 0 <= i < |more| :: more[i].DagNodeCreated? || more[i].DagEdgeCreated? }

  lemma {:induction false} NodeEventsCreate(emissions: seq<Emission>, ids: seq<nat>)
    requires |ids| == |emissions|
    ensures Creations(NodeEvents(emissions, ids))
    decreases |emissions|
  {
    if emissions != [] {
      NodeEventsCreate(emissions[..|emissions| - 1], ids[..|emissions| - 1]);
    }
  }

  lemma {:induction false} EdgeEventsCreate(emissions: seq<Emission>, created: map<string, NodeId>, ids: seq<nat>)
    requires |ids| == |emissions| && EndpointsResolve(created.Keys, emissions)
    ensures Creations(EdgeEvents(emissions, created, ids))
    decreases |emissions|
  {
    if emissions != [] {
      assert emissions[|emissions| - 1] in emissions;
      EdgeEventsCreate(emissions[..|emissions| - 1], created, ids[..|emissions| - 1]);
    }
  }

  lemma CreationsJoin(a: seq<EventData>, b: seq<EventData>)
    requires Creations(a) && Creations(b)
    ensures Creations(a + b)
  {
  }

  lemma CreationsForNone(response: Response, more: seq<EventData>, task: NodeId)
    requires Creations(more)
    ensures ForTask([ResponseValidated(response)] + more, task) && !IsTerminal(([ResponseValidated(response)] + more)[|more|])
  {
  }

  lemma ReplyCreates(response: Response, ids: seq<nat>, task: NodeId)
    requires |ids| == |response.emissions| && EndpointsResolve(RefsOf(response.emissions), response.emissions)
    ensures var events := ReplyEvents(response, ids);
      events != [] && events[0] == ResponseValidated(response) && Creations(events[1..])
      && ForTask(events, task) && !IsTerminal(events[|events| - 1])
  {
    var nodes, edges := NodeEvents(response.emissions, ids), EdgeEvents(response.emissions, CreatedBy(response.emissions, ids), ids);
    NodeEventsCreate(response.emissions, ids);
    EdgeEventsCreate(response.emissions, CreatedBy(response.emissions, ids), ids);
    CreationsJoin(nodes, edges);
    CreationsForNone(response, nodes + edges, task);
    assert ReplyEvents(response, ids)[1..] == nodes + edges;
  }

  /** A reply to an IR the run has recorded, validated against it, may be applied: what the step asks for
      holds however the store has moved on. */
  lemma RespondFollows(db: Db, a: Account, ir: Ir, response: Response, ids: seq<nat>, now: Instant)
    requires Kept(db, a) && IsRunning(db, a.run)
    requires IrCompiled(ir) in a.log && ValidResponse(response, ir) && |ids| == |response.emissions|
    ensures Permitted(db, Respond(a.run, ir, response, ids, now)) && EndpointsResolve(RefsOf(response.emissions), response.emissions)
    ensures var r := ApplyResponse(db, a.run, response, ids, now);
      r.Ok? ==> IsRunning(r.value, a.run)
                && Kept(r.value, With(a, Respond(a.run, ir, response, ids, now), ReplyEvents(response, ids)))
  {
    TiedIs(db, a);
    CompiledHere(db, a.run, a.task, a.opening, a.log, ir);
    RespondTells(db, a.run, ir, response, ids, now, a.note);
    var r := ApplyResponse(db, a.run, response, ids, now);
    if r.Ok? {
      ReplyCreates(response, ids, a.task);
      OwnFollows(db, a, Respond(a.run, ir, response, ids, now), ReplyEvents(response, ids), r.value);
    }
  }

  lemma RememberFollows(db: Db, a: Account, findings: seq<Finding>, ids: seq<nat>, refs: seq<string>, now: Instant)
    requires Kept(db, a) && IsRunning(db, a.run) && |ids| == |findings| == |refs|
    ensures var r, more := RecordFindings(db, a.run, findings, ids, refs, now), FindingEvents(db, db.runs[a.run].project, findings, ids, refs);
      Found(more)
      && (r.Ok? ==> IsRunning(r.value, a.run) && Kept(r.value, With(a, Remember(a.run, findings, ids, refs, now), more)))
  {
    TiedIs(db, a);
    RememberTells(db, a.run, findings, ids, refs, now, a.note);
    var r, more := RecordFindings(db, a.run, findings, ids, refs, now), FindingEvents(db, db.runs[a.run].project, findings, ids, refs);
    FindingEventsFound(db, db.runs[a.run].project, findings, ids, refs);
    if r.Ok? {
      Follows(db, a, Remember(a.run, findings, ids, refs, now), more, r.value);
      KeptFrom(r.value, With(a, Remember(a.run, findings, ids, refs, now), more));
    }
  }

  lemma CompleteFollows(db: Db, a: Account)
    requires Kept(db, a) && IsRunning(db, a.run)
    ensures CompleteRun(db, a.run).Ok?
    ensures var db' := CompleteRun(db, a.run).value; !IsRunning(db', a.run) && Kept(db', With(a, Complete(a.run), [RunCompleted]))
  {
    TiedIs(db, a);
    CompleteTells(db, a.run, a.note);
    ForTaskOne(RunCompleted, a.task);
    OwnFollows(db, a, Complete(a.run), [RunCompleted], CompleteRun(db, a.run).value);
  }

  lemma EndingForNone(evidence: Option<EventData>, code: ErrorCode, message: string, task: NodeId)
    requires evidence.Some? ==> IsEvidence(evidence.value)
    ensures var more := Ending(evidence, code, message); more != [] && ForTask(more, task) && IsTerminal(more[|more| - 1])
  {
  }

  lemma FailFollows(db: Db, a: Account, evidence: Option<EventData>, code: ErrorCode, message: string)
    requires Kept(db, a) && IsRunning(db, a.run) && (evidence.Some? ==> IsEvidence(evidence.value))
    ensures FailWith(db, a.run, evidence, code, message).Ok?
    ensures var db' := FailWith(db, a.run, evidence, code, message).value;
      !IsRunning(db', a.run) && Kept(db', With(a, Fail(a.run, evidence, code, message), Ending(evidence, code, message)))
  {
    TiedIs(db, a);
    FailureTells(db, a.run, evidence, code, message, a.note);
    EndingForNone(evidence, code, message, a.task);
    OwnFollows(db, a, Fail(a.run, evidence, code, message), Ending(evidence, code, message),
               FailWith(db, a.run, evidence, code, message).value);
  }

  /** Two notes in one transaction are two steps. */
  lemma FallbackFollows(db: Db, a: Account, d: EventData, e: EventData)
    requires Kept(db, a) && IsRunning(db, a.run) && IsNote(d) && IsNote(e)
    ensures AppendEvents(db, a.run, [d, e]).Ok?
    ensures var db' := AppendEvents(db, a.run, [d, e]).value;
      IsRunning(db', a.run) && Kept(db', With(With(a, Note(a.run, d), [d]), Note(a.run, e), [e]))
  {
    RecordFollows(db, a, d);
    var db1 := AppendEvent(db, a.run, d).value;
    RecordFollows(db1, With(a, Note(a.run, d), [d]), e);
    assert [d, e][1..] == [e] && [e][1..] == [];
    assert AppendEvents(db1, a.run, [e]) == AppendEvent(db1, a.run, e);
  }

  lemma LastTold(db: Db, run: RunId)
    requires Inv(db) && run in db.runs
    ensures var h, status := History(db, run), db.runs[run].status;
      h != [] && (status == Completed <==> h[|h| - 1].RunCompleted?) && (status == Running <==> !IsTerminal(h[|h| - 1]))
  {
    assert RunOk(db, run);
    HistoryIsSound(db.events, run, db.runs[run]);
  }

  /** How the run stands is what it recorded last. */
  lemma StatusTold(db: Db, a: Account)
    requires Kept(db, a) && a.log != []
    ensures a.run in db.runs
    ensures var last, status := a.log[|a.log| - 1], db.runs[a.run].status;
      (status == Completed <==> last.RunCompleted?) && (status == Failed <==> last.RunFailed?)
  {
    TiedIs(db, a);
    LastTold(db, a.run);
    assert (a.opening + a.log)[|a.opening + a.log| - 1] == a.log[|a.log| - 1];
  }

  /** Handed over in a reachable store, a run leaves a reachable store, having been executed along with
      everything else: all that holds of reachable stores holds of it. */
  lemma StaysReachable(db: Db, a: Account, steps: seq<Step>)
    requires Kept(db, a) && a.begun == Execute(EMPTY, steps, a.note)
    ensures db == Execute(EMPTY, steps + a.trace, a.note)
  {
    TiedIs(db, a);
    ExecuteConcat(EMPTY, steps, a.trace, a.note);
  }

  // ---- Why a run may fail ----

  /** What has gone wrong, kept apart from what is recorded: a run may fail only for one of these. */
  class Blame {
    ghost var causes: set<ErrorCode>

    constructor ()
      ensures causes == {}
    {
      causes := {};
    }

    ghost method Add(code: ErrorCode)
      modifies this
      ensures causes == old(causes) + {code}
    {
      causes := causes + {code};
    }

    /** A point where the code waits, and may be stopped. */
    method Await() returns (stop: bool)
      modifies this
      ensures causes == old(causes) + if stop then {Cancelled} else {}
    {
      stop := *;
      if stop { Add(Cancelled); }
    }
  }

  // ---- The journal ----

  /** A run's hold on the store while it is executed. Between any two of its transactions other runs may
      take any steps; a transaction may fail to be made, and then nothing of it is recorded. */
  class Journal {
    const store: Storage.Store
    const run: RunId
    const task: NodeId
    const note: string -> string
    const blame: Blame
    /** The tables when the run was handed over. */
    ghost const begun: Db
    ghost var account: Account

    ghost predicate Valid() reads this, store {
      store.Valid() && Kept(store.State(), account)
      && account.run == run && account.task == task && account.note == note && account.begun == begun
    }

    ghost predicate Live() reads store { IsRunning(store.State(), run) }

    /** What the run has recorded. */
    ghost function Log(): seq<EventData> reads this { account.log }

    constructor (store: Storage.Store, run: RunId, task: NodeId, note: string -> string)
      requires store.Valid() && GoodRunning(store.State(), run)
      requires Opened(Database.Log(store.events, run)) && TaskOf(Database.Log(store.events, run)) == task
      ensures Valid() && Live() && account == Account(run, task, note, store.State(), History(store.State(), run), [], [])
      ensures this.store == store && this.run == run && this.task == task && this.note == note && begun == store.State()
      ensures fresh(blame) && blame.causes == {}
    {
      this.store, this.run, this.task, this.note, begun := store, run, task, note, store.State();
      account := Account(run, task, note, store.State(), History(store.State(), run), [], []);
      blame := new Blame();
      new;
      assert account.opening + account.log == account.opening;
      KeptFrom(store.State(), account);
    }

    method Others()
      requires Valid()
      modifies this, store
      ensures Valid() && Log() == old(Log()) && Live() == old(Live())
    {
      var all: seq<Step> := *;
      ghost var steps: seq<Step> := [];
      for i := 0 to |all|
        invariant store.Valid() && store.State() == Execute(old(store.State()), steps, note) && NoneBy(steps, run)
        invariant account == old(account)
      {
        if RunOf(all[i]) != Some(run) {
          ExecuteAppend(old(store.State()), steps, all[i], note);
          Perform(store, all[i], note);
          steps := steps + [all[i]];
        }
      }
      FollowOthers(old(store.State()), account, steps);
      account := account.(trace := account.trace + steps);
    }

    /** Others take their steps; then this run's transaction is made, or the store fails it. */
    method Turn() returns (ok: bool)
      requires Valid()
      modifies this, store, blame
      ensures Valid() && Log() == old(Log()) && Live() == old(Live())
      ensures blame.causes == old(blame.causes) + if ok then {} else {Internal}
    {
      Others();
      ok := *;
      if !ok { blame.Add(Internal); }
    }

    // ---- The run's transactions, with everything else in between ----

    /** Records an event that touches nothing else. */
    method Record(d: EventData) returns (ok: bool)
      requires Valid() && Live() && IsNote(d)
      modifies this, store, blame
      ensures Valid() && Live() && Log() == if ok then old(Log()) + [d] else old(Log())
      ensures !ok ==> Internal in blame.causes
    {
      ok := Turn();
      if ok {
        RecordFollows(store.State(), account, d);
        var _ := store.Record(run, d);
        account := With(account, Note(run, d), [d]);
      }
    }

    /** Records two such events at once. */
    method RecordBoth(d: EventData, e: EventData) returns (ok: bool)
      requires Valid() && Live() && IsNote(d) && IsNote(e)
      modifies this, store, blame
      ensures Valid() && Live() && Log() == if ok then old(Log()) + [d] + [e] else old(Log())
      ensures !ok ==> Internal in blame.causes
    {
      ok := Turn();
      if ok {
        FallbackFollows(store.State(), account, d, e);
        var _ := store.RecordAll(run, [d, e]);
        account := With(With(account, Note(run, d), [d]), Note(run, e), [e]);
      }
    }

    /** Records what is asked of Jev: the project's candidates as they are now. */
    method Ask(tools: seq<string>) returns (r: Option<Request>)
      requires Valid() && Live()
      modifies this, store, blame
      ensures Valid() && Live() && Log() == if r.Some? then old(Log()) + [JevRequested(r.value)] else old(Log())
      ensures r.Some? ==> r.value.tools == tools
      ensures r.None? ==> Internal in blame.causes
    {
      var ok := Turn();
      if !ok { return None; }
      var request := ClassificationRequest(store.State(), run, task, tools);
      AskFollows(store.State(), account, tools, request);
      var _ := store.Record(run, JevRequested(request));
      account := With(account, Step.Ask(run, tools), [JevRequested(request)]);
      return Some(request);
    }

    /** Applies a valid answer to what was asked, however much later: it always applies. */
    method Classify(request: Request, c: Classification) returns (ok: bool, ghost moves: seq<EventData>)
      requires Valid() && Live() && JevRequested(request) in Log() && Projection.ValidClassification(request, c)
      modifies this, store, blame
      ensures Valid() && Live() && Changes(moves)
      ensures Log() == if ok then old(Log()) + ([JevClassified(c)] + moves) else old(Log())
      ensures !ok ==> Internal in blame.causes
    {
      ok := Turn();
      moves := [];
      if ok {
        moves := ClassifyFollows(store.State(), account, request, c);
        var _ := store.Classify(run, c);
        account := With(account, Step.Classify(run, request, c), [JevClassified(c)] + moves);
      }
    }

    /** Puts the whole project into the run's context. */
    method Expand() returns (ok: bool, ghost moves: seq<EventData>)
      requires Valid() && Live()
      modifies this, store, blame
      ensures Valid() && Live() && Changes(moves)
      ensures Log() == if ok then old(Log()) + ([ContextExpanded] + moves) else old(Log())
      ensures !ok ==> Internal in blame.causes
    {
      ok := Turn();
      moves := [];
      if ok {
        moves := ExpandFollows(store.State(), account);
        var _ := store.Expand(run, task);
        account := With(account, Step.Expand(run), [ContextExpanded] + moves);
      }
    }

    /** Compiles the step's IR from the tables as they are now, fitting it to the budget, and records it. */
    method CompileIr(tools: seq<string>, step: Fitting.StepInput, window: nat, size: Ir -> nat, bytes: string -> nat)
      returns (r: Result<Ir, Compilation.CompileError>, ghost now: Db, ghost ps: seq<Fitting.Progress>)
      requires Valid() && Live()
      modifies this, store, blame
      ensures Valid() && Live() && Log() == if r.Ok? then old(Log()) + [IrCompiled(r.value)] else old(Log())
      ensures r.Ok? ==> r.value.task == task && r.value.tools == tools
      ensures r.Ok? ==> Fitting.Fits(Fitting.Setting(now, run, task, tools, step, window, size, bytes, note), ps, r.value)
      ensures r.Ok? ==> History(now, run) == History(begun, run) + old(Log())
      ensures r.Ok? ==> AppendEvent(now, run, IrCompiled(r.value)) == Ok(store.State())
      ensures r.Err? ==> Internal in blame.causes
    {
      var ok := Turn();
      now, ps := store.State(), [];
      if !ok { return Err(Compilation.StoreFailed(NotFound)), now, ps; }
      var compiled;
      compiled, ps := Fitting.CompileIr(store.State(), run, task, tools, step, window, size, bytes, note);
      if compiled.Err? {
        blame.Add(Internal);
        return Err(compiled.error), now, ps;
      }
      var ir := compiled.value.1;
      ghost var h := Fitting.HistoryOf(step, ps[|ps| - 1].fit);
      CompileFollows(store.State(), account, tools, h, ir);
      ToldSoFar(store.State(), account);
      var _ := store.Record(run, IrCompiled(ir));
      account := With(account, Step.CompileIr(run, tools, h), [IrCompiled(ir)]);
      return Ok(ir), now, ps;
    }

    /** Applies a reply that is valid against an IR the run has recorded; the graph, as it is now, may
        refuse it, and then nothing of it is recorded. */
    method Respond(ir: Ir, response: Response, ids: seq<nat>, now: Instant) returns (r: Result<(), Option<StoreError>>, ghost held: Db)
      requires Valid() && Live() && IrCompiled(ir) in Log() && ValidResponse(response, ir) && |ids| == |response.emissions|
      modifies this, store, blame
      ensures EndpointsResolve(RefsOf(response.emissions), response.emissions)
      ensures Valid() && Live() && Log() == if r.Ok? then old(Log()) + ReplyEvents(response, ids) else old(Log())
      ensures r.Ok? ==> ApplyResponse(held, run, response, ids, now) == Ok(store.State()) && run in held.runs
      ensures r.Err? && r.error.Some? ==> ApplyResponse(held, run, response, ids, now) == Err(r.error.value)
      ensures r.Ok? ==> AddsEmitted(held.nodes, held.runs[run].project, response.emissions, ids, now, store.nodes)
      ensures r.Err? ==> Internal in blame.causes && (r.error.Some? ==> EmissionRejected in blame.causes)
    {
      KnownResolve(RefsOf(response.emissions), Visible(ir), response.emissions);
      var ok := Turn();
      held := store.State();
      if !ok { return Err(None), held; }
      RespondFollows(store.State(), account, ir, response, ids, now);
      var applied := store.Respond(run, response, ids, now);
      if applied.Err? {
        blame.Add(Internal);
        blame.Add(EmissionRejected);
        return Err(Some(applied.error)), held;
      }
      AddsWhatIsEmitted(held, run, response, ids, now, store.State());
      account := With(account, Step.Respond(run, ir, response, ids, now), ReplyEvents(response, ids));
      return Ok(()), held;
    }

    /** Records findings the project has no node for. */
    method Remember(findings: seq<Finding>, ids: seq<nat>, refs: seq<string>, now: Instant)
      returns (ok: bool, ghost more: seq<EventData>, ghost held: Db)
      requires Valid() && Live() && |ids| == |findings| == |refs|
      modifies this, store, blame
      ensures Valid() && Live() && Found(more) && Log() == if ok then old(Log()) + more else old(Log())
      ensures ok ==> run in held.runs && RecordFindings(held, run, findings, ids, refs, now) == Ok(store.State())
      ensures ok ==> History(held, run) == History(begun, run) + old(Log())
      ensures ok ==> more == FindingEvents(held, held.runs[run].project, findings, ids, refs)
      ensures !ok ==> Internal in blame.causes
    {
      ok := Turn();
      more, held := [], store.State();
      if ok {
        RememberFollows(store.State(), account, findings, ids, refs, now);
        ToldSoFar(store.State(), account);
        more := FindingEvents(store.State(), store.runs[run].project, findings, ids, refs);
        var recorded := store.Remember(run, findings, ids, refs, now);
        if recorded.Err? {
          blame.Add(Internal);
          return false, more, held;
        }
        account := With(account, Step.Remember(run, findings, ids, refs, now), more);
      }
    }

    method Complete() returns (ok: bool)
      requires Valid() && Live()
      modifies this, store, blame
      ensures Valid() && Live() == !ok && Log() == if ok then old(Log()) + [RunCompleted] else old(Log())
      ensures !ok ==> Internal in blame.causes
    {
      ok := Turn();
      if ok {
        CompleteFollows(store.State(), account);
        var _ := store.Complete(run);
        account := With(account, Step.Complete(run), [RunCompleted]);
      }
    }

    method Fail(evidence: Option<EventData>, code: ErrorCode, message: string) returns (ok: bool)
      requires Valid() && Live() && (evidence.Some? ==> IsEvidence(evidence.value))
      modifies this, store, blame
      ensures Valid() && Live() == !ok && Log() == if ok then old(Log()) + Ending(evidence, code, message) else old(Log())
      ensures blame.causes == old(blame.causes) + if ok then {} else {Internal}
    {
      ok := Turn();
      if ok {
        FailFollows(store.State(), account, evidence, code, message);
        var _ := store.Fail(run, evidence, code, message);
        account := With(account, Step.Fail(run, evidence, code, message), Ending(evidence, code, message));
      }
    }
  }
}
