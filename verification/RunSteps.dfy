/** Starting and ending runs: what each leaves, and that it keeps the invariant. */
module RunSteps {
  import opened Common
  import opened Order
  import opened Records
  import opened Database
  import opened Invariants
  import opened ContextSteps

  // ---- Ending a run ----

  predicate Ends(d: EventData, status: Status, code: Option<ErrorCode>) {
    (d.RunCompleted? && status == Completed && code.None?)
    || (d.RunFailed? && status == Failed && code == Some(d.errorCode))
  }

  function Ended(db: Db, run: RunId, d: EventData, status: Status, code: Option<ErrorCode>): Db
    requires run in db.runs
  {
    Finish(WithEvent(db, run, d), run, status, code)
  }

  lemma EndKeepsRun(db: Db, run: RunId, d: EventData, status: Status, code: Option<ErrorCode>)
    requires run in db.context && IsRunning(db, run) && RunOk(db, run) && Ends(d, status, code)
    ensures RunOk(Ended(db, run, d, status, code), run)
  {
    var row := NextRow(db, run, d);
    LogAppend(db.events, row, run);
    HistoryEnds(Log(db.events, run), db.runs[run], row, db.runs[run].(status := status, errorCode := code));
    ContextAppend(db.context[run].Keys, Log(db.events, run), ProjectNodes(db.nodes, db.runs[run].project), row);
  }

  lemma EndDomains(db: Db, run: RunId, d: EventData, status: Status, code: Option<ErrorCode>)
    requires Domains(db) && OneRunning(db.runs) && run in db.runs && status != Running
    ensures var db' := Ended(db, run, d, status, code);
      Domains(db') && OneRunning(db'.runs) && db'.runs.Keys == db.runs.Keys + {run}
  {
  }

  lemma EndSame(db: Db, run: RunId, d: EventData, status: Status, code: Option<ErrorCode>, r: RunId)
    requires run in db.runs && r in db.runs && r in db.context && r != run
    ensures SameRun(db, Ended(db, run, d, status, code), r)
  {
    LogAppend(db.events, NextRow(db, run, d), r);
  }

  lemma EndKeepsRuns(db: Db, run: RunId, d: EventData, status: Status, code: Option<ErrorCode>)
    requires Domains(db) && RunsOk(db) && IsRunning(db, run) && RunOk(db, run) && Ends(d, status, code)
    ensures Domains(Ended(db, run, d, status, code)) && RunsOk(Ended(db, run, d, status, code))
  {
    EndDomains(db, run, d, status, code);
    EndKeepsRun(db, run, d, status, code);
    forall r | r in db.runs && r != run ensures SameRun(db, Ended(db, run, d, status, code), r) {
      EndSame(db, run, d, status, code, r);
    }
    OtherRunsKept(db, Ended(db, run, d, status, code), run);
  }

  lemma EndKeepsReplay(db: Db, run: RunId, d: EventData, status: Status, code: Option<ErrorCode>)
    requires Replayed(db) && EventsOfRuns(db.events, db.runs) && run in db.runs && Ends(d, status, code)
    ensures Replayed(Ended(db, run, d, status, code))
  {
    var db' := Ended(db, run, d, status, code);
    ReplayAppend(db.events, NextRow(db, run, d), db.runs);
    ReplayEdgesSameProjects(db'.events, db.runs, db'.runs);
  }

  lemma EndKeepsInv(db: Db, run: RunId, d: EventData, status: Status, code: Option<ErrorCode>)
    requires Inv(db) && IsRunning(db, run) && RunOk(db, run) && Ends(d, status, code)
    ensures Inv(Ended(db, run, d, status, code))
  {
    EndKeepsRuns(db, run, d, status, code);
    EndKeepsReplay(db, run, d, status, code);
  }

  lemma CompleteKeepsInv(db: Db, run: RunId)
    requires Inv(db) && IsRunning(db, run) && RunOk(db, run)
    ensures CompleteRun(db, run) == Ok(Ended(db, run, RunCompleted, Completed, None))
    ensures Inv(Ended(db, run, RunCompleted, Completed, None))
  {
    AppendsNextRow(db, run, RunCompleted);
    EndKeepsInv(db, run, RunCompleted, Completed, None);
  }

  lemma FailKeepsInv(db: Db, run: RunId, code: ErrorCode, message: string)
    requires Inv(db) && IsRunning(db, run) && RunOk(db, run)
    ensures FailRun(db, run, code, message) == Ok(Ended(db, run, RunFailed(code, message), Failed, Some(code)))
    ensures Inv(Ended(db, run, RunFailed(code, message), Failed, Some(code)))
  {
    AppendsNextRow(db, run, RunFailed(code, message));
    EndKeepsInv(db, run, RunFailed(code, message), Failed, Some(code));
  }

  // ---- Starting a run ----

  /** A run's opening events, as rows. */
  function Opening(run: RunId, task: NodeId, text: string, previous: Option<RunId>, carried: seq<NodeId>): seq<Event> {
    [Event(run, 1, RunStarted), Event(run, 2, MessageRecorded(task, text)), Event(run, 3, ContextCarried(previous, carried))]
  }

  function NewRun(db: Db, conversation: ConversationId, now: Instant): Run
    requires conversation in db.conversations
  {
    Run(db.conversations[conversation], conversation, Running, now, None)
  }

  function CarriedFrom(db: Db, runs: map<RunId, Run>, run: RunId): map<NodeId, Source>
    requires run in runs
  {
    var previous := PreviousRun(runs, run);
    if previous.None? then map[] else map n | n in ContextOf(db, previous.value) :: Carried
  }

  lemma PreviousIsEarlier(runs: map<RunId, Run>, run: RunId)
    requires run in runs && PreviousRun(runs, run).Some?
    ensures var p := PreviousRun(runs, run).value;
      p in runs && p != run && runs[p].conversation == runs[run].conversation && Less(RunKey(runs, p), RunKey(runs, run))
  {
    var earlier := Sorted(EarlierInConversation(runs, run));
    assert earlier[|earlier| - 1] in earlier;
  }

  lemma CarriedInProject(db: Db, conversation: ConversationId, run: RunId, task: NodeId, now: Instant)
    requires Domains(db) && RunsOk(db) && conversation in db.conversations && run !in db.runs && task !in db.nodes
    ensures var runs' := db.runs[run := NewRun(db, conversation, now)];
      CarriedFrom(db, runs', run).Keys <= ProjectNodes(db.nodes, db.conversations[conversation]) - {task}
  {
    var runs' := db.runs[run := NewRun(db, conversation, now)];
    if PreviousRun(runs', run).Some? {
      PreviousIsEarlier(runs', run);
      assert RunOk(db, PreviousRun(runs', run).value);
    }
  }

  /** The tables once a run has started. */
  function Started(db: Db, conversation: ConversationId, run: RunId, task: NodeId, text: string, now: Instant): Db
    requires conversation in db.conversations
    requires CarriedFrom(db, db.runs[run := NewRun(db, conversation, now)], run).Keys <= db.nodes.Keys
  {
    var runs' := db.runs[run := NewRun(db, conversation, now)];
    var nodes' := db.nodes[task := Node(db.conversations[conversation], ConversationNode, UserTurn(text), now)];
    var carried := CarriedFrom(db, runs', run);
    db.(runs := runs', nodes := nodes', context := db.context[run := carried],
        events := db.events + Opening(run, task, text, PreviousRun(runs', run), Ranked(nodes', carried.Keys)))
  }

  lemma NoEventsYet(events: seq<Event>, runs: map<RunId, Run>, run: RunId)
    requires EventsOfRuns(events, runs) && run !in runs
    ensures Log(events, run) == []
  {
    LogWithin(events, run);
    if Log(events, run) != [] {
      assert Log(events, run)[0] in Log(events, run);
    }
  }

  lemma LogOpening(events: seq<Event>, a: Event, b: Event, c: Event, r: RunId)
    requires a.run == b.run == c.run
    ensures Log(events + [a, b, c], r) == if r == a.run then Log(events, r) + [a, b, c] else Log(events, r)
  {
    LogAppend(events, a, r);
    LogAppend(events + [a], b, r);
    LogAppend(events + [a] + [b], c, r);
    assert events + [a] + [b] + [c] == events + [a, b, c];
    assert Log(events, r) + [a] + [b] + [c] == Log(events, r) + [a, b, c];
  }

  /** Starting succeeds exactly when the conversation exists, the project is idle and the ids are free, and
      says which of these fails first. */
  lemma StartsRun(db: Db, conversation: ConversationId, run: RunId, task: NodeId, text: string, now: Instant)
    requires Domains(db) && RunsOk(db)
    ensures StartRun(db, conversation, run, task, text, now).Ok? <==>
      conversation in db.conversations && !HasRunning(db, db.conversations[conversation]) && run !in db.runs && task !in db.nodes
    ensures StartRun(db, conversation, run, task, text, now).Ok? ==>
      CarriedFrom(db, db.runs[run := NewRun(db, conversation, now)], run).Keys <= db.nodes.Keys
      && StartRun(db, conversation, run, task, text, now) == Ok(Started(db, conversation, run, task, text, now))
    ensures var r := StartRun(db, conversation, run, task, text, now);
      r.Err? ==> r.error == if conversation !in db.conversations then NotFound
                            else if HasRunning(db, db.conversations[conversation]) then RunInProgress else IdTaken
  {
    if conversation in db.conversations && !HasRunning(db, db.conversations[conversation]) && run !in db.runs {
      NoEventsYet(db.events, db.runs, run);
      var db1 := db.(runs := db.runs[run := NewRun(db, conversation, now)]);
      var e1 := Event(run, 1, RunStarted);
      assert CreateRun(db, conversation, run, now) == Ok(db1.(events := db.events + [e1]));
      LogAppend(db.events, e1, run);
      assert db.conversations[conversation] in db.projects;
      if task !in db.nodes {
        CarriedInProject(db, conversation, run, task, now);
        StartsWithTask(db, db1.(events := db.events + [e1]), conversation, run, task, text, now);
      }
    }
  }

  /** Carrying context: the third event of a run that has its task. */
  lemma CarriesContext(db: Db, run: RunId, carried: map<NodeId, Source>)
    requires IsRunning(db, run) && carried == CarriedFrom(db, db.runs, run)
    requires carried.Keys <= ProjectNodes(db.nodes, db.runs[run].project)
    requires Numbered(Log(db.events, run)) && |Log(db.events, run)| == 2
    ensures carried.Keys <= db.nodes.Keys
    ensures CarryContext(db, run) == Ok(db.(context := db.context[run := carried],
      events := db.events + [Event(run, 3, ContextCarried(PreviousRun(db.runs, run), Ranked(db.nodes, carried.Keys)))]))
  {
    ReplacesContext(db, run, carried);
    MaxOfNumbered(Log(db.events, run));
  }

  lemma StartsWithTask(db: Db, db1: Db, conversation: ConversationId, run: RunId, task: NodeId, text: string, now: Instant)
    requires conversation in db.conversations && run !in db.runs && task !in db.nodes
    requires CarriedFrom(db, db.runs[run := NewRun(db, conversation, now)], run).Keys
      <= ProjectNodes(db.nodes, db.conversations[conversation])
    requires db1 == db.(runs := db.runs[run := NewRun(db, conversation, now)], events := db.events + [Event(run, 1, RunStarted)])
    requires Log(db1.events, run) == [Event(run, 1, RunStarted)]
    ensures CarriedFrom(db, db1.runs, run).Keys <= db.nodes.Keys
    ensures var node := Node(db.conversations[conversation], ConversationNode, UserTurn(text), now);
      var db2 := db1.(nodes := db.nodes[task := node], events := db1.events + [Event(run, 2, MessageRecorded(task, text))]);
      AppendEvent(db1.(nodes := db.nodes[task := node]), run, MessageRecorded(task, text)) == Ok(db2)
      && CarryContext(db2, run) == Ok(Started(db, conversation, run, task, text, now))
  {
    var project := db.conversations[conversation];
    var e1, e2 := Event(run, 1, RunStarted), Event(run, 2, MessageRecorded(task, text));
    var db2 := db1.(nodes := db.nodes[task := Node(project, ConversationNode, UserTurn(text), now)], events := db1.events + [e2]);
    MaxOfNumbered([e1]);
    assert Log(db2.events, run) == [e1, e2] by { LogAppend(db1.events, e2, run); }
    var carried := CarriedFrom(db, db1.runs, run);
    CarriesFrom(db, db2, run);
    assert carried.Keys <= ProjectNodes(db2.nodes, project) by {
      MoreProjectNodes(db.nodes, db2.nodes, project);
    }
    CarriesContext(db2, run, carried);
    ThreeEvents(db.events, run, task, text, PreviousRun(db1.runs, run), Ranked(db2.nodes, carried.Keys));
  }

  lemma ThreeEvents(events: seq<Event>, run: RunId, task: NodeId, text: string, previous: Option<RunId>, carried: seq<NodeId>)
    ensures events + [Event(run, 1, RunStarted)] + [Event(run, 2, MessageRecorded(task, text))]
      + [Event(run, 3, ContextCarried(previous, carried))] == events + Opening(run, task, text, previous, carried)
  {
  }

  lemma CarriesFrom(db: Db, db2: Db, run: RunId)
    requires run in db2.runs && db2.context == db.context
    ensures CarriedFrom(db2, db2.runs, run) == CarriedFrom(db, db2.runs, run)
  {
  }

  // ---- A started run keeps the invariant ----

  lemma OpeningIsOk(run: RunId, task: NodeId, text: string, previous: Option<RunId>, carried: seq<NodeId>, r: Run, nodes: set<NodeId>)
    requires r.status == Running && task in nodes && Elements(carried) <= nodes - {task}
    ensures var log := Opening(run, task, text, previous, carried);
      HistoryOk(log, r) && ContextOk(Elements(carried), log, nodes)
  {
    var log := Opening(run, task, text, previous, carried);
    ReplayAppend(log[..2], log[2], map[]);
    assert log[..2] + [log[2]] == log;
  }

  lemma ReplayOpening(events: seq<Event>, run: RunId, task: NodeId, text: string, previous: Option<RunId>, carried: seq<NodeId>,
                      runs: map<RunId, Run>)
    ensures var events' := events + Opening(run, task, text, previous, carried);
      ReplayNodes(events') == ReplayNodes(events)[task := (run, ConversationNode)] && ReplayEdges(events', runs) == ReplayEdges(events, runs)
  {
    var e := Opening(run, task, text, previous, carried);
    ThreeEvents(events, run, task, text, previous, carried);
    ReplayAppend(events, e[0], runs);
    ReplayAppend(events + [e[0]], e[1], runs);
    ReplayAppend(events + [e[0]] + [e[1]], e[2], runs);
  }

  lemma StartKeepsReplay(db: Db, conversation: ConversationId, run: RunId, task: NodeId, text: string, now: Instant)
    requires Replayed(db) && EventsOfRuns(db.events, db.runs) && conversation in db.conversations
    requires run !in db.runs && task !in db.nodes
    requires CarriedFrom(db, db.runs[run := NewRun(db, conversation, now)], run).Keys <= db.nodes.Keys
    ensures Replayed(Started(db, conversation, run, task, text, now))
  {
    var db' := Started(db, conversation, run, task, text, now);
    var carried := CarriedFrom(db, db'.runs, run);
    ReplayOpening(db.events, run, task, text, PreviousRun(db'.runs, run), Ranked(db'.nodes, carried.Keys), db'.runs);
    ReplayEdgesSameProjects(db.events, db.runs, db'.runs);
  }

  lemma StartDomains(db: Db, conversation: ConversationId, run: RunId, task: NodeId, text: string, now: Instant)
    requires Domains(db) && OneRunning(db.runs) && conversation in db.conversations
    requires run !in db.runs && task !in db.nodes && !HasRunning(db, db.conversations[conversation])
    requires CarriedFrom(db, db.runs[run := NewRun(db, conversation, now)], run).Keys <= db.nodes.Keys
    ensures var db' := Started(db, conversation, run, task, text, now);
      Domains(db') && OneRunning(db'.runs) && NodesGrow(db.nodes, db'.nodes) && db'.runs.Keys == db.runs.Keys + {run}
  {
  }

  lemma StartSame(db: Db, conversation: ConversationId, run: RunId, task: NodeId, text: string, now: Instant, r: RunId)
    requires conversation in db.conversations && r in db.runs && r in db.context && r != run
    requires CarriedFrom(db, db.runs[run := NewRun(db, conversation, now)], run).Keys <= db.nodes.Keys
    ensures SameRun(db, Started(db, conversation, run, task, text, now), r)
  {
    var db' := Started(db, conversation, run, task, text, now);
    var e := Opening(run, task, text, PreviousRun(db'.runs, run), Ranked(db'.nodes, CarriedFrom(db, db'.runs, run).Keys));
    LogOpening(db.events, e[0], e[1], e[2], r);
  }

  lemma StartedRunOk(db: Db, conversation: ConversationId, run: RunId, task: NodeId, text: string, now: Instant)
    requires EventsOfRuns(db.events, db.runs) && conversation in db.conversations && run !in db.runs && task !in db.nodes
    requires CarriedFrom(db, db.runs[run := NewRun(db, conversation, now)], run).Keys
      <= ProjectNodes(db.nodes, db.conversations[conversation])
    ensures CarriedFrom(db, db.runs[run := NewRun(db, conversation, now)], run).Keys <= db.nodes.Keys
    ensures var db' := Started(db, conversation, run, task, text, now); RunOk(db', run) && TaskOf(Log(db'.events, run)) == task
  {
    var db' := Started(db, conversation, run, task, text, now);
    var carried := CarriedFrom(db, db'.runs, run);
    var ranked := Ranked(db'.nodes, carried.Keys);
    var project := db.conversations[conversation];
    var e := Opening(run, task, text, PreviousRun(db'.runs, run), ranked);
    assert Log(db'.events, run) == e by {
      NoEventsYet(db.events, db.runs, run);
      LogOpening(db.events, e[0], e[1], e[2], run);
    }
    assert Elements(ranked) == carried.Keys by { ElementsRanked(db'.nodes, carried.Keys); }
    assert carried.Keys <= ProjectNodes(db'.nodes, project) - {task} by { MoreProjectNodes(db.nodes, db'.nodes, project); }
    OpeningIsOk(run, task, text, PreviousRun(db'.runs, run), ranked, db'.runs[run], ProjectNodes(db'.nodes, project));
  }

  lemma StartKeepsRuns(db: Db, conversation: ConversationId, run: RunId, task: NodeId, text: string, now: Instant)
    requires Domains(db) && RunsOk(db) && StartRun(db, conversation, run, task, text, now).Ok?
    ensures conversation in db.conversations
    ensures CarriedFrom(db, db.runs[run := NewRun(db, conversation, now)], run).Keys <= db.nodes.Keys
    ensures StartRun(db, conversation, run, task, text, now) == Ok(Started(db, conversation, run, task, text, now))
    ensures var db' := Started(db, conversation, run, task, text, now);
      Domains(db') && RunsOk(db') && RunOk(db', run) && TaskOf(Log(db'.events, run)) == task
  {
    StartsRun(db, conversation, run, task, text, now);
    CarriedInProject(db, conversation, run, task, now);
    StartDomains(db, conversation, run, task, text, now);
    StartedRunOk(db, conversation, run, task, text, now);
    var db' := Started(db, conversation, run, task, text, now);
    forall r | r in db.runs && r != run ensures SameRun(db, db', r) {
      StartSame(db, conversation, run, task, text, now, r);
    }
    OtherRunsKept(db, db', run);
  }

  lemma StartKeepsInv(db: Db, conversation: ConversationId, run: RunId, task: NodeId, text: string, now: Instant, db': Db)
    requires Inv(db) && StartRun(db, conversation, run, task, text, now) == Ok(db')
    ensures Inv(db') && run !in db.runs && run in db'.runs && RunOk(db', run) && TaskOf(Log(db'.events, run)) == task
  {
    StartKeepsRuns(db, conversation, run, task, text, now);
    StartsRun(db, conversation, run, task, text, now);
    StartDomains(db, conversation, run, task, text, now);
    StartKeepsReplay(db, conversation, run, task, text, now);
    GraphKeepsMoreNodes(db.nodes, db'.nodes, db.edges);
  }

  // ---- What a started run begins with ----

  /** `p` is the latest of the runs of `run`'s conversation that started before it. */
  predicate IsPrevious(runs: map<RunId, Run>, run: RunId, p: RunId)
    requires run in runs
  {
    IsBefore(runs, run, p) && forall r | r in runs && IsBefore(runs, run, r) && r != p :: Less(RunKey(runs, r), RunKey(runs, p))
  }

  predicate IsBefore(runs: map<RunId, Run>, run: RunId, r: RunId)
    requires run in runs
  {
    r in runs && runs[r].conversation == runs[run].conversation && Less(RunKey(runs, r), RunKey(runs, run))
  }

  lemma PreviousIs(runs: map<RunId, Run>, run: RunId)
    requires run in runs
    ensures var p := PreviousRun(runs, run);
      if p.Some? then IsPrevious(runs, run, p.value) else forall r | r in runs :: !IsBefore(runs, run, r)
  {
    var all := EarlierInConversation(runs, run);
    assert forall r | r in runs :: IsBefore(runs, run, r) <==> RunKey(runs, r) in all;
    if PreviousRun(runs, run).Some? {
      PreviousIsEarlier(runs, run);
      LastIsGreatest(all);
    }
  }

  /** The context of a started run: the members of the run before it in its conversation, all as carried. */
  ghost predicate CarriesPrevious(db: Db, runs: map<RunId, Run>, run: RunId, members: map<NodeId, Source>)
    requires run in runs
  {
    (forall n | n in members :: members[n] == Carried)
    && forall n :: n in members <==> exists p :: p in db.runs && IsPrevious(runs, run, p) && p in db.context && n in db.context[p]
  }

  lemma CarriedIsPrevious(db: Db, runs: map<RunId, Run>, run: RunId)
    requires run in runs && run !in db.runs && runs.Keys == db.runs.Keys + {run}
    ensures CarriesPrevious(db, runs, run, CarriedFrom(db, runs, run))
  {
    PreviousIs(runs, run);
    var members := CarriedFrom(db, runs, run);
    forall n ensures n in members <==> exists p :: p in db.runs && IsPrevious(runs, run, p) && p in db.context && n in db.context[p] {
      if n in members {
        PreviousIsEarlier(runs, run);
        assert IsPrevious(runs, run, PreviousRun(runs, run).value);
      }
      if p :| p in db.runs && IsPrevious(runs, run, p) && p in db.context && n in db.context[p] {
        SamePrevious(runs, run, p);
      }
    }
  }

  lemma SamePrevious(runs: map<RunId, Run>, run: RunId, p: RunId)
    requires run in runs && IsPrevious(runs, run, p)
    ensures PreviousRun(runs, run) == Some(p)
  {
    PreviousIs(runs, run);
  }

  /** A started run is a running row, a task node that holds the message, and the context of the run before it in its
      conversation; nothing else in those tables changes. */
  lemma StartsAsTold(db: Db, conversation: ConversationId, run: RunId, task: NodeId, text: string, now: Instant, db': Db)
    requires Domains(db) && RunsOk(db) && StartRun(db, conversation, run, task, text, now) == Ok(db')
    ensures conversation in db.conversations && db'.projects == db.projects && db'.conversations == db.conversations && db'.edges == db.edges
    ensures db'.runs == db.runs[run := Run(db.conversations[conversation], conversation, Running, now, None)]
    ensures db'.nodes == db.nodes[task := Node(db.conversations[conversation], ConversationNode, UserTurn(text), now)]
    ensures run in db'.context && db'.context == db.context[run := db'.context[run]] && CarriesPrevious(db, db'.runs, run, db'.context[run])
  {
    StartsRun(db, conversation, run, task, text, now);
    CarriedIsPrevious(db, db.runs[run := NewRun(db, conversation, now)], run);
  }

  /** Whom a run carries its context from: the run before it in its conversation, or nobody if it is the first. */
  predicate FromPrevious(runs: map<RunId, Run>, run: RunId, source: Option<RunId>)
    requires run in runs
  {
    match source case Some(p) => IsPrevious(runs, run, p) case None => forall r | r in runs :: !IsBefore(runs, run, r)
  }

  /** Three events that open a run's history. */
  predicate TellsStart(log: seq<Event>, runs: map<RunId, Run>, run: RunId, task: NodeId, text: string, members: set<NodeId>)
    requires run in runs
  {
    |log| == 3 && log[0].data == RunStarted && log[1].data == MessageRecorded(task, text)
    && log[2].data.ContextCarried? && FromPrevious(runs, run, log[2].data.fromRun) && Elements(log[2].data.nodes) == members
  }

  /** A started run's history holds its start, its message, and the members carried, from whom. */
  lemma StartIsRecorded(db: Db, conversation: ConversationId, run: RunId, task: NodeId, text: string, now: Instant, db': Db)
    requires Domains(db) && RunsOk(db) && StartRun(db, conversation, run, task, text, now) == Ok(db')
    ensures run in db'.runs && run in db'.context && TellsStart(Log(db'.events, run), db'.runs, run, task, text, db'.context[run].Keys)
  {
    StartsRun(db, conversation, run, task, text, now);
    var carried := CarriedFrom(db, db'.runs, run);
    var e := Opening(run, task, text, PreviousRun(db'.runs, run), Ranked(db'.nodes, carried.Keys));
    NoEventsYet(db.events, db.runs, run);
    LogOpening(db.events, e[0], e[1], e[2], run);
    assert Log(db'.events, run) == e;
    ElementsRanked(db'.nodes, carried.Keys);
    PreviousIs(db'.runs, run);
  }
}
