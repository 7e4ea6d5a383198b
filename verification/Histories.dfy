/** Every history of the store: any interleaving of the transactions that runs make, cut off at any
    point. What one step keeps, and what therefore holds of everything that can be reached. */
module Histories {
  import opened Common
  import opened Graph
  import opened Records
  import opened Database
  import opened Invariants
  import opened ContextSteps
  import opened RunSteps
  import opened Frames
  import opened Responses
  import opened Projection
  import Compilation

  /** One transaction. Runs interleave freely; a stopped run simply has no further step but `Fail`. */
  datatype Step =
    | AddProject(project: ProjectId)
    | AddConversation(home: ProjectId, conversation: ConversationId)
    | Start(thread: ConversationId, started: RunId, task: NodeId, text: string, at: Instant)
    | Ask(run: RunId, tools: seq<string>)
    | Classify(run: RunId, request: Request, classification: Classification)
    | Expand(run: RunId)
    | CompileIr(run: RunId, tools: seq<string>, history: Compilation.History)
    | Note(run: RunId, data: EventData)
    | Respond(run: RunId, ir: Ir, response: Response, ids: seq<nat>, at: Instant)
    | Remember(run: RunId, findings: seq<Finding>, ids: seq<nat>, refs: seq<string>, at: Instant)
    | Complete(run: RunId)
    | Fail(run: RunId, evidence: Option<EventData>, code: ErrorCode, message: string)

  /** Events a run records without touching another table. */
  predicate IsNote(d: EventData) {
    d.JevRejected? || d.JevFallback? || d.InferenceStarted? || d.InferenceDelta? || d.InferenceCompleted? || d.ToolRequested?
    || d.ToolDecided? || d.ToolCompleted? || d.ReviewCompleted? || d.ResponseRejected?
  }

  predicate IsEvidence(d: EventData) { d.JevRejected? || d.ResponseRejected? }

  predicate AskedFor(log: seq<Event>, request: Request) {
    exists i :: 0 <= i < |log| && log[i].data == JevRequested(request)
  }

  /** What the pipeline has made sure of before it makes a step: a classification or a response was
      validated against what the run was shown, and the ids it was given match what it creates. */
  predicate Permitted(db: Db, step: Step) {
    match step
    case Ask(run, _) => IsRunning(db, run) && Opened(Log(db.events, run))
    case Classify(run, request, c) => IsRunning(db, run) && AskedFor(Log(db.events, run), request) && ValidClassification(request, c)
    case Expand(run) => IsRunning(db, run) && Opened(Log(db.events, run))
    case CompileIr(run, _, _) => IsRunning(db, run) && Opened(Log(db.events, run))
    case Note(_, d) => IsNote(d)
    case Respond(run, ir, response, ids, _) =>
      IsRunning(db, run) && CompiledFor(db, run, ir) && ValidResponse(response, ir) && |ids| == |response.emissions|
    case Remember(run, findings, ids, refs, _) => IsRunning(db, run) && |ids| == |findings| == |refs|
    case Fail(_, evidence, _, _) => evidence.Some? ==> IsEvidence(evidence.value)
    case _ => true
  }

  lemma KnownResolve(refs: set<string>, visible: set<NodeId>, emissions: seq<Emission>)
    requires EndpointsKnown(refs, visible, emissions)
    ensures EndpointsResolve(refs, emissions)
  {
    forall e | e in emissions && e.EmitEdge? ensures Resolvable(refs, e.from) && Resolvable(refs, e.to) {
      var i :| 0 <= i < |emissions| && emissions[i] == e;
      assert KnownEnds(refs, visible, emissions[i]);
    }
  }

  /** The tables after a permitted step, or why it was refused. */
  ghost function Outcome(db: Db, step: Step, note: string -> string): Result<Db, StoreError>
    requires Permitted(db, step)
  {
    match step
    case AddProject(project) => Ok(db.(projects := db.projects + {project}))
    case AddConversation(project, conversation) => AddConversationTo(db, project, conversation)
    case Start(conversation, run, task, text, now) => StartRun(db, conversation, run, task, text, now)
    case Ask(run, tools) => AppendEvent(db, run, JevRequested(ClassificationRequest(db, run, TaskOf(Log(db.events, run)), tools)))
    case Classify(run, _, c) => ApplyClassification(db, run, c)
    case Expand(run) => ExpandContext(db, run, TaskOf(Log(db.events, run)))
    case CompileIr(run, tools, h) =>
      var ir := Compilation.Compile(db, run, TaskOf(Log(db.events, run)), tools, h, note);
      if ir.Err? then Err(NotFound) else AppendEvent(db, run, IrCompiled(ir.value))
    case Note(run, d) => AppendEvent(db, run, d)
    case Respond(run, ir, response, ids, now) =>
      KnownResolve(RefsOf(response.emissions), Visible(ir), response.emissions);
      ApplyResponse(db, run, response, ids, now)
    case Remember(run, findings, ids, refs, now) => RecordFindings(db, run, findings, ids, refs, now)
    case Complete(run) => CompleteRun(db, run)
    case Fail(run, evidence, code, message) => FailWith(db, run, evidence, code, message)
  }

  /** A step that is not permitted or is refused leaves the tables as they were. */
  ghost function Apply(db: Db, step: Step, note: string -> string): Db {
    if Permitted(db, step) && Outcome(db, step, note).Ok? then Outcome(db, step, note).value else db
  }

  ghost function Execute(db: Db, steps: seq<Step>, note: string -> string): Db
    decreases |steps|
  {
    if steps == [] then db else Apply(Execute(db, steps[..|steps| - 1], note), steps[|steps| - 1], note)
  }

  // ---- Each step keeps the invariant ----

  lemma EmptyInv()
    ensures Inv(EMPTY)
  {
  }

  lemma ProjectKeepsInv(db: Db, project: ProjectId)
    requires Inv(db)
    ensures Inv(db.(projects := db.projects + {project}))
  {
    var db' := db.(projects := db.projects + {project});
    forall r | r in db'.runs ensures RunOk(db', r) {
      assert SameRun(db, db', r);
      RunOkKept(db, db', r);
    }
  }

  lemma ConversationKeepsInv(db: Db, project: ProjectId, conversation: ConversationId)
    requires Inv(db) && AddConversationTo(db, project, conversation).Ok?
    ensures Inv(AddConversationTo(db, project, conversation).value)
  {
    var db' := AddConversationTo(db, project, conversation).value;
    assert ConversationsExist(db'.conversations, db'.runs);
    forall r | r in db'.runs ensures RunOk(db', r) {
      assert SameRun(db, db', r);
      RunOkKept(db, db', r);
    }
  }

  lemma NotesArePlain(d: EventData, others: set<NodeId>)
    requires IsNote(d)
    ensures Plain(d) && Mid(d, others)
  {
  }

  lemma AskIsMid(db: Db, run: RunId, tools: seq<string>)
    requires run in db.runs && Opened(Log(db.events, run))
    ensures var d := JevRequested(ClassificationRequest(db, run, TaskOf(Log(db.events, run)), tools));
      Plain(d) && Mid(d, Others(db, run))
  {
    var request := ClassificationRequest(db, run, TaskOf(Log(db.events, run)), tools);
    RequestCandidates(db, run, TaskOf(Log(db.events, run)), tools);
    forall c | c in request.candidates ensures c.node in Others(db, run) {
      assert c.node in CandidateIds(request);
    }
  }

  lemma CompileIsMid(db: Db, run: RunId, tools: seq<string>, h: Compilation.History, note: string -> string)
    requires run in db.runs && run in db.context && RunOk(db, run)
    requires Compilation.Compile(db, run, TaskOf(Log(db.events, run)), tools, h, note).Ok?
    ensures var d := IrCompiled(Compilation.Compile(db, run, TaskOf(Log(db.events, run)), tools, h, note).value);
      Plain(d) && Mid(d, Others(db, run))
  {
    Compilation.ShowsContext(db, run, tools, h, note);
  }

  lemma ContextWithin(db: Db, run: RunId)
    requires run in db.runs && run in db.context && RunOk(db, run)
    ensures db.context[run].Keys <= Others(db, run) && Others(db, run) <= db.nodes.Keys
  {
  }

  lemma ChangeKeepsInv(db: Db, run: RunId, after: map<NodeId, Source>, head: EventData)
    requires Inv(db) && IsRunning(db, run) && RunOk(db, run) && IsHead(head) && after.Keys <= Others(db, run)
    ensures ChangeContext(db, run, after, head).Ok? && Inv(ChangeContext(db, run, after, head).value)
  {
    ContextWithin(db, run);
    ContextKeepsInv(db, run, after, head, Changed(db, run, after, head));
  }

  lemma RequestWithin(db: Db, run: RunId, request: Request)
    requires run in db.runs && run in db.context && RunOk(db, run) && AskedFor(Log(db.events, run), request)
    ensures CandidateIds(request) <= Others(db, run)
  {
    var log := Log(db.events, run);
    var i :| 0 <= i < |log| && log[i].data == JevRequested(request);
    forall n | n in CandidateIds(request) ensures n in Others(db, run) {
      var c :| c in request.candidates && c.node == n;
      assert c in log[i].data.request.candidates;
    }
  }

  /** A validated classification can always be applied. */
  lemma ClassifyKeepsInv(db: Db, run: RunId, request: Request, c: Classification)
    requires Inv(db) && IsRunning(db, run) && RunOk(db, run)
    requires AskedFor(Log(db.events, run), request) && ValidClassification(request, c)
    ensures ApplyClassification(db, run, c).Ok? && Inv(ApplyClassification(db, run, c).value)
  {
    RequestWithin(db, run, request);
    ContextWithin(db, run);
    MembershipWithin(db.context[run], request, c, Others(db, run));
    ChangeKeepsInv(db, run, Membership(db.context[run], c.entries), JevClassified(c));
  }

  lemma ExpandKeepsInv(db: Db, run: RunId)
    requires Inv(db) && IsRunning(db, run) && RunOk(db, run)
    ensures ExpandContext(db, run, TaskOf(Log(db.events, run))).Ok?
    ensures Inv(ExpandContext(db, run, TaskOf(Log(db.events, run))).value)
  {
    var task, before := TaskOf(Log(db.events, run)), ContextOf(db, run);
    var more := map n | n in ProjectNodes(db.nodes, db.runs[run].project) && n != task && n !in before :: Jev;
    ContextWithin(db, run);
    ChangeKeepsInv(db, run, before + more, ContextExpanded);
  }

  /** All the nodes of the run's project but its task: those that were members, as they were, and the rest as chosen by Jev. */
  predicate HoldsAll(nodes: map<NodeId, Node>, project: ProjectId, task: NodeId, before: map<NodeId, Source>, after: map<NodeId, Source>) {
    (forall n | n in nodes :: n in after <==> nodes[n].project == project && n != task)
    && forall n | n in after :: n in nodes && after[n] == if n in before then before[n] else Jev
  }

  function Rest(nodes: map<NodeId, Node>, project: ProjectId, task: NodeId, before: map<NodeId, Source>): map<NodeId, Source> {
    map n | n in ProjectNodes(nodes, project) && n != task && n !in before :: Jev
  }

  lemma RestCompletes(nodes: map<NodeId, Node>, project: ProjectId, task: NodeId, before: map<NodeId, Source>)
    requires before.Keys <= ProjectNodes(nodes, project) - {task}
    ensures HoldsAll(nodes, project, task, before, before + Rest(nodes, project, task, before))
  {
  }

  /** Expanding a run's context leaves it all the nodes of its project but its task. */
  lemma ExpandsToAll(db: Db, run: RunId, db': Db)
    requires Inv(db) && IsRunning(db, run) && RunOk(db, run) && ExpandContext(db, run, TaskOf(Log(db.events, run))) == Ok(db')
    ensures run in db'.context && db' == db.(context := db.context[run := db'.context[run]], events := db'.events)
    ensures HoldsAll(db.nodes, db.runs[run].project, TaskOf(Log(db.events, run)), db.context[run], db'.context[run])
  {
    var task, before := TaskOf(Log(db.events, run)), db.context[run];
    var after := before + Rest(db.nodes, db.runs[run].project, task, before);
    ContextWithin(db, run);
    RestCompletes(db.nodes, db.runs[run].project, task, before);
    ContextKeepsInv(db, run, after, ContextExpanded, Changed(db, run, after, ContextExpanded));
  }

  lemma {:induction false} RememberKeepsInv(db: Db, run: RunId, findings: seq<Finding>, ids: seq<nat>, refs: seq<string>, now: Instant,
                                            db': Db)
    requires GoodRunning(db, run) && |ids| == |findings| == |refs|
    requires RecordFindings(db, run, findings, ids, refs, now) == Ok(db')
    ensures GoodRunning(db', run) && Extends(db, db', run)
    decreases |findings|
  {
    if findings == [] {
      ExtendsSelf(db, run);
    } else {
      var k := |findings| - 1;
      var rest := RecordFindings(db, run, findings[..k], ids[..k], refs[..k], now).value;
      RememberKeepsInv(db, run, findings[..k], ids[..k], refs[..k], now, rest);
      if !AlreadyFound(db, db.runs[run].project, findings[k]) {
        var payload := LintFinding(findings[k].rule, findings[k].file, findings[k].functionName);
        AnnounceKeepsInv(rest, run, ids[k], ObservationNode, payload, refs[k], now, db');
        NodeExtends(rest, run, ids[k], ObservationNode, payload, refs[k], now);
        ExtendsTrans(db, rest, db', run);
      }
    }
  }

  /** What failing a run leaves: the run marked failed and nothing else touched. */
  ghost predicate FailedIn(db: Db, run: RunId, code: ErrorCode, db': Db) {
    Inv(db') && Extends(db, db', run)
    && run in db.runs && db'.runs == db.runs[run := db.runs[run].(status := Failed, errorCode := Some(code))]
    && db' == db.(runs := db'.runs, events := db'.events)
  }

  lemma FailsNow(db: Db, run: RunId, code: ErrorCode, message: string)
    requires GoodRunning(db, run)
    ensures FailRun(db, run, code, message).Ok? && FailedIn(db, run, code, FailRun(db, run, code, message).value)
  {
    assert RunOk(db, run);
    FailKeepsInv(db, run, code, message);
    FinishExtends(db, run, RunFailed(code, message), Failed, Some(code));
  }

  lemma NoteKeepsInv(db: Db, run: RunId, d: EventData)
    requires GoodRunning(db, run) && IsNote(d)
    ensures AppendEvent(db, run, d) == Ok(WithEvent(db, run, d)) && GoodRunning(WithEvent(db, run, d), run)
    ensures Extends(db, WithEvent(db, run, d), run)
  {
    assert RunOk(db, run);
    NotesArePlain(d, Others(db, run));
    AppendKeepsInv(db, run, d);
    AppendExtends(db, run, d);
  }

  /** A running run can be failed at any point, whatever it has committed so far. */
  lemma FailAlways(db: Db, run: RunId, evidence: Option<EventData>, code: ErrorCode, message: string)
    requires GoodRunning(db, run) && (evidence.Some? ==> IsEvidence(evidence.value))
    ensures FailWith(db, run, evidence, code, message).Ok?
    ensures FailedIn(db, run, code, FailWith(db, run, evidence, code, message).value)
  {
    if evidence.None? {
      FailsNow(db, run, code, message);
    } else {
      NoteKeepsInv(db, run, evidence.value);
      var db1 := WithEvent(db, run, evidence.value);
      FailsNow(db1, run, code, message);
      ExtendsTrans(db, db1, FailWith(db, run, evidence, code, message).value, run);
    }
  }

  // ---- Any step ----

  /** The run a step works for, if any. */
  function RunOf(step: Step): Option<RunId> {
    match step
    case AddProject(_) => None
    case AddConversation(_, _) => None
    case Start(_, run, _, _, _) => Some(run)
    case Ask(run, _) => Some(run)
    case Classify(run, _, _) => Some(run)
    case Expand(run) => Some(run)
    case CompileIr(run, _, _) => Some(run)
    case Note(run, _) => Some(run)
    case Respond(run, _, _, _, _) => Some(run)
    case Remember(run, _, _, _, _) => Some(run)
    case Complete(run) => Some(run)
    case Fail(run, _, _, _) => Some(run)
  }

  lemma PlainStepKept(db: Db, run: RunId, d: EventData)
    requires GoodRunning(db, run) && RunOk(db, run) && Plain(d) && Mid(d, Others(db, run))
    ensures AppendEvent(db, run, d).Ok? && Inv(AppendEvent(db, run, d).value) && Extends(db, AppendEvent(db, run, d).value, run)
  {
    AppendKeepsInv(db, run, d);
    AppendExtends(db, run, d);
  }

  lemma ContextStepKept(db: Db, step: Step, note: string -> string)
    requires Inv(db) && (step.Classify? || step.Expand?) && Permitted(db, step)
    ensures Outcome(db, step, note).Ok? && Inv(Outcome(db, step, note).value) && Extends(db, Outcome(db, step, note).value, step.run)
  {
    assert RunOk(db, step.run);
    if step.Classify? {
      ClassifyKeepsInv(db, step.run, step.request, step.classification);
      ChangeExtends(db, step.run, Membership(ContextOf(db, step.run), step.classification.entries), JevClassified(step.classification));
    } else {
      ExpandKeepsInv(db, step.run);
      var task, before := TaskOf(Log(db.events, step.run)), ContextOf(db, step.run);
      var more := map n | n in ProjectNodes(db.nodes, db.runs[step.run].project) && n != task && n !in before :: Jev;
      ChangeExtends(db, step.run, before + more, ContextExpanded);
    }
  }

  lemma EventStepKept(db: Db, step: Step, note: string -> string)
    requires Inv(db) && (step.Ask? || step.CompileIr? || step.Note?) && Permitted(db, step) && Outcome(db, step, note).Ok?
    ensures Inv(Outcome(db, step, note).value) && Extends(db, Outcome(db, step, note).value, step.run)
  {
    assert IsRunning(db, step.run) && RunOk(db, step.run);
    if step.Ask? {
      AskIsMid(db, step.run, step.tools);
      PlainStepKept(db, step.run, JevRequested(ClassificationRequest(db, step.run, TaskOf(Log(db.events, step.run)), step.tools)));
    } else if step.CompileIr? {
      CompileIsMid(db, step.run, step.tools, step.history, note);
      PlainStepKept(db, step.run,
                    IrCompiled(Compilation.Compile(db, step.run, TaskOf(Log(db.events, step.run)), step.tools, step.history, note).value));
    } else {
      NotesArePlain(step.data, Others(db, step.run));
      PlainStepKept(db, step.run, step.data);
    }
  }

  lemma EndStepKept(db: Db, step: Step, note: string -> string)
    requires Inv(db) && (step.Complete? || step.Fail?) && Permitted(db, step) && Outcome(db, step, note).Ok?
    ensures Inv(Outcome(db, step, note).value) && Extends(db, Outcome(db, step, note).value, step.run)
  {
    assert IsRunning(db, step.run);
    assert RunOk(db, step.run);
    if step.Complete? {
      CompleteKeepsInv(db, step.run);
      FinishExtends(db, step.run, RunCompleted, Completed, None);
    } else {
      FailAlways(db, step.run, step.evidence, step.code, step.message);
    }
  }

  lemma GraphStepKept(db: Db, step: Step, note: string -> string)
    requires Inv(db) && (step.Respond? || step.Remember?) && Permitted(db, step) && Outcome(db, step, note).Ok?
    ensures Inv(Outcome(db, step, note).value) && Extends(db, Outcome(db, step, note).value, step.run)
  {
    var db' := Outcome(db, step, note).value;
    if step.Respond? {
      KnownResolve(RefsOf(step.response.emissions), Visible(step.ir), step.response.emissions);
      ApplyKeepsInv(db, step.run, step.response, step.ids, step.at, db');
    } else {
      RememberKeepsInv(db, step.run, step.findings, step.ids, step.refs, step.at, db');
    }
  }

  /** What a step may change: its own run, and the graph by growing; or, without a run, only the
      projects and conversations. */
  predicate ChangesOnly(db: Db, step: Step, db': Db) {
    match RunOf(step)
    case Some(run) => Extends(db, db', run)
    case None => db' == db.(projects := db'.projects, conversations := db'.conversations)
  }

  lemma OpeningStepKept(db: Db, step: Step, note: string -> string)
    requires Inv(db) && (step.AddProject? || step.AddConversation? || step.Start?) && Outcome(db, step, note).Ok?
    ensures Inv(Outcome(db, step, note).value) && ChangesOnly(db, step, Outcome(db, step, note).value)
  {
    if step.AddProject? {
      ProjectKeepsInv(db, step.project);
    } else if step.AddConversation? {
      ConversationKeepsInv(db, step.home, step.conversation);
    } else {
      StartKeepsInv(db, step.thread, step.started, step.task, step.text, step.at, Outcome(db, step, note).value);
      StartExtends(db, step.thread, step.started, step.task, step.text, step.at, Outcome(db, step, note).value);
    }
  }

  lemma StepKept(db: Db, step: Step, note: string -> string)
    requires Inv(db) && Permitted(db, step) && Outcome(db, step, note).Ok?
    ensures Inv(Outcome(db, step, note).value) && ChangesOnly(db, step, Outcome(db, step, note).value)
  {
    if step.AddProject? || step.AddConversation? || step.Start? {
      OpeningStepKept(db, step, note);
    } else if step.Classify? || step.Expand? {
      ContextStepKept(db, step, note);
    } else if step.Ask? || step.CompileIr? || step.Note? {
      EventStepKept(db, step, note);
    } else if step.Complete? || step.Fail? {
      EndStepKept(db, step, note);
    } else {
      GraphStepKept(db, step, note);
    }
  }
}
