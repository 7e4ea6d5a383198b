/** What a run recalls before its first step still fits what it is shown steps later: while it runs, its
    project's other turns stay as they were. */
module Recalls {
  import opened Common
  import opened Order
  import opened Records
  import opened Database
  import opened Invariants
  import opened RunSteps
  import opened Frames
  import opened Histories
  import opened Reachable
  import opened Turns
  import opened Endings
  import opened Tasks
  import opened Compilation
  import opened Fitting

  /** The runs of `run`'s project, with their rows, are the same in both stores. */
  predicate SameProject(a: map<RunId, Run>, b: map<RunId, Run>, run: RunId) {
    run in a && run in b && ProjectRuns(b, a[run].project) == ProjectRuns(a, a[run].project)
    && forall r | r in ProjectRuns(a, a[run].project) :: r in a && r in b && b[r] == a[r]
  }

  lemma SameProjectTrans(a: map<RunId, Run>, b: map<RunId, Run>, c: map<RunId, Run>, run: RunId)
    requires SameProject(a, b, run) && SameProject(b, c, run)
    ensures SameProject(a, c, run)
  {
    assert run in ProjectRuns(a, a[run].project);
  }

  /** A run's project never changes. */
  lemma ProjectKept(db: Db, step: Step, note: string -> string, r: RunId)
    requires Inv(db) && r in db.runs && IsRunning(db, r) && RunOf(step) == Some(r)
    ensures r in Apply(db, step, note).runs && Apply(db, step, note).runs[r].project == db.runs[r].project
  {
    if step.Start? {
      StartRefused(db, step, note);
    } else if step.Complete? {
      FinishKeeps(db, r, RunCompleted, Completed, None);
      CompleteKeepsInv(db, r);
      CompleteApplies(db, r, note);
    } else if step.Fail? && Permitted(db, step) {
      FailAlways(db, r, step.evidence, step.code, step.message);
      FailApplies(db, r, step.evidence, step.code, step.message, note);
    } else if Permitted(db, step) && Outcome(db, step, note).Ok? {
      OwnRowKept(db, step, note, r);
    }
  }

  lemma FinishKeeps(db: Db, r: RunId, d: EventData, status: Status, code: Option<ErrorCode>)
    requires IsRunning(db, r)
    ensures AppendEvent(db, r, d).Ok? && Finish(AppendEvent(db, r, d).value, r, status, code).runs[r].project == db.runs[r].project
  {
  }

  /** A step of the run itself that leaves it running leaves every row alone. */
  lemma OwnStepKeeps(db: Db, step: Step, note: string -> string, run: RunId)
    requires Inv(db) && IsRunning(db, run) && RunOf(step) == Some(run) && IsRunning(Apply(db, step, note), run)
    ensures Apply(db, step, note).runs == db.runs
  {
    if step.Start? {
      StartRefused(db, step, note);
    } else if step.Complete? || step.Fail? {
      EndsAsTold(db, step, note, run);
    } else if Permitted(db, step) && Outcome(db, step, note).Ok? {
      OwnRowKept(db, step, note, run);
    }
  }

  /** A run started meanwhile is of another project. */
  lemma StartedElsewhere(db: Db, step: Step, note: string -> string, run: RunId)
    requires Inv(db) && IsRunning(db, run) && step.Start? && Outcome(db, step, note).Ok?
    ensures step.started in Outcome(db, step, note).value.runs
    ensures Outcome(db, step, note).value.runs[step.started].project != db.runs[run].project
  {
    StartsRun(db, step.thread, step.started, step.task, step.text, step.at);
  }

  /** So is a run that takes a step meanwhile. */
  lemma OtherElsewhere(db: Db, step: Step, note: string -> string, run: RunId, r: RunId)
    requires Inv(db) && IsRunning(db, run) && RunOf(step) == Some(r) && r != run
    requires Permitted(db, step) && Outcome(db, step, note).Ok?
    ensures r in db.runs ==> db.runs[r].project != db.runs[run].project
    ensures r in Outcome(db, step, note).value.runs
    ensures Outcome(db, step, note).value.runs[r].project != db.runs[run].project
  {
    OwnStep(db, step, note, r);
    if r in db.runs {
      assert db.runs[r].project != db.runs[run].project;
      ProjectKept(db, step, note, r);
    } else if step.Start? {
      StartedElsewhere(db, step, note, run);
    } else {
      OwnIsRunning(db, step, note);
    }
  }

  lemma RestSameProject(a: map<RunId, Run>, b: map<RunId, Run>, run: RunId, r: RunId)
    requires RestKept(a, b, r) && run in a && r != run && r in b && b[r].project != a[run].project
    requires r in a ==> a[r].project != a[run].project
    ensures SameProject(a, b, run)
  {
  }

  lemma StepKeepsProject(db: Db, step: Step, note: string -> string, run: RunId)
    requires Inv(db) && IsRunning(db, run) && IsRunning(Apply(db, step, note), run)
    ensures SameProject(db.runs, Apply(db, step, note).runs, run)
  {
    if RunOf(step) == Some(run) {
      OwnStepKeeps(db, step, note, run);
    } else if Permitted(db, step) && Outcome(db, step, note).Ok? {
      StepKept(db, step, note);
      if RunOf(step).Some? {
        OtherElsewhere(db, step, note, run, RunOf(step).value);
        RestSameProject(db.runs, Outcome(db, step, note).value.runs, run, RunOf(step).value);
      }
    }
  }

  lemma WasRunning(db: Db, step: Step, note: string -> string, run: RunId)
    requires Inv(db) && run in db.runs && IsRunning(Apply(db, step, note), run)
    ensures IsRunning(db, run)
  {
    if db.runs[run].status != Running {
      FrozenByOne(db, step, note, run);
    }
  }

  /** While a run is running, no other turn of its project comes, goes or changes. */
  lemma {:induction false} ProjectStays(db: Db, steps: seq<Step>, note: string -> string, run: RunId)
    requires Inv(db) && IsRunning(db, run) && IsRunning(Execute(db, steps, note), run)
    ensures SameProject(db.runs, Execute(db, steps, note).runs, run)
    decreases |steps|
  {
    if steps != [] {
      var init, last := steps[..|steps| - 1], steps[|steps| - 1];
      var mid := Execute(db, init, note);
      ExecuteKept(db, init, note);
      StatusIs(db, init, note, run);
      WasRunning(mid, last, note, run);
      ProjectStays(db, init, note, run);
      StepKeepsProject(mid, last, note, run);
      SameProjectTrans(db.runs, mid.runs, Execute(db, steps, note).runs, run);
    }
  }

  predicate InConversation(runs: map<RunId, Run>, run: RunId, r: RunId)
    requires run in runs
  {
    r in runs && runs[r].conversation == runs[run].conversation
  }

  lemma ConversationInProject(db: Db, run: RunId, r: RunId)
    requires ConversationsExist(db.conversations, db.runs) && run in db.runs && InConversation(db.runs, run, r)
    ensures r in ProjectRuns(db.runs, db.runs[run].project)
  {
    assert db.conversations[db.runs[r].conversation] == db.runs[r].project;
  }

  /** The runs of `run`'s conversation are the same, with the same rows. */
  ghost predicate SameConversation(a: map<RunId, Run>, b: map<RunId, Run>, run: RunId) {
    run in a && run in b && (forall r :: InConversation(a, run, r) <==> InConversation(b, run, r))
    && forall r :: InConversation(a, run, r) ==> r in b && b[r] == a[r]
  }

  lemma ConversationStays(a: Db, b: Db, run: RunId)
    requires ConversationsExist(a.conversations, a.runs) && ConversationsExist(b.conversations, b.runs)
    requires SameProject(a.runs, b.runs, run)
    ensures SameConversation(a.runs, b.runs, run)
  {
    assert run in ProjectRuns(a.runs, a.runs[run].project);
    forall r | InConversation(a.runs, run, r) ensures InConversation(b.runs, run, r) && b.runs[r] == a.runs[r] {
      ConversationInProject(a, run, r);
    }
    forall r | InConversation(b.runs, run, r) ensures InConversation(a.runs, run, r) {
      ConversationInProject(b, run, r);
    }
  }

  lemma SameEarlier(a: map<RunId, Run>, b: map<RunId, Run>, run: RunId)
    requires SameConversation(a, b, run)
    ensures EarlierInConversation(b, run) == EarlierInConversation(a, run)
  {
    assert InConversation(a, run, run);
    forall k | k in EarlierInConversation(a, run) ensures k in EarlierInConversation(b, run) {
      assert InConversation(a, run, k.id);
    }
    forall k | k in EarlierInConversation(b, run) ensures k in EarlierInConversation(a, run) {
      assert InConversation(b, run, k.id);
    }
  }

  // ---- What an IR recalls ----

  /** `s` is what the run recalled: everything, or what Jev judged relevant. */
  ghost predicate Recalled(candidates: seq<RecalledTurn>, s: seq<Scored>) {
    s == RecallEverything(candidates) || exists scores :: s == SelectRecalled(candidates, scores)
  }

  lemma RecalledAreCandidates(db: Db, run: RunId, window: nat, text: seq<Event> -> string, s: seq<Scored>)
    requires run in db.runs && Recalled(Told(db, Candidates(db.runs, run, window), text), s)
    ensures OldestFirst(db.runs, ScoredRuns(s)) && Set(ScoredRuns(s)) <= Set(Candidates(db.runs, run, window))
  {
    var ids := Candidates(db.runs, run, window);
    var told := Told(db, ids, text);
    if s == RecallEverything(told) {
      CandidatesInOrder(db.runs, run, window);
      assert ScoredRuns(s) == ids;
    } else {
      var scores :| s == SelectRecalled(told, scores);
      RecallsOldestFirst(db, run, window, text, scores);
      SelectedAreCandidates(db, ids, text, scores);
    }
  }

  lemma SelectedAreCandidates(db: Db, ids: seq<RunId>, text: seq<Event> -> string, scores: seq<real>)
    ensures Set(ScoredRuns(SelectRecalled(Told(db, ids, text), scores))) <= Set(ids)
  {
    var judged := Judged(Told(db, ids, text), scores);
    JudgedRuns(db, ids, text, scores);
    forall r | r in ScoredRuns(Relevant(judged)) ensures r in ids {
      ComesFrom(judged, r);
    }
  }

  /** A recalled turn is a candidate, told from its whole history. */
  predicate IsTold(db: Db, ids: seq<RunId>, text: seq<Event> -> string, t: RecalledTurn) {
    t.run in ids && t.text == text(Log(db.events, t.run))
  }

  lemma ToldAre(db: Db, ids: seq<RunId>, text: seq<Event> -> string)
    ensures forall i | 0 <= i < |Told(db, ids, text)| :: IsTold(db, ids, text, Told(db, ids, text)[i])
  {
  }

  lemma RecalledAreTold(db: Db, run: RunId, window: nat, text: seq<Event> -> string, s: seq<Scored>, x: Scored)
    requires run in db.runs && Recalled(Told(db, Candidates(db.runs, run, window), text), s) && x in s
    ensures IsTold(db, Candidates(db.runs, run, window), text, x.turn)
  {
    var ids := Candidates(db.runs, run, window);
    var told := Told(db, ids, text);
    ToldAre(db, ids, text);
    if s == RecallEverything(told) {
      var i :| 0 <= i < |s| && s[i] == x;
      assert x.turn == told[i];
    } else {
      var scores :| s == SelectRecalled(told, scores);
      RecallsRelevant(told, scores, x);
      var i: nat :| ScoredAs(told, scores, i, x);
    }
  }

  lemma KeptAreTold(db: Db, run: RunId, window: nat, text: seq<Event> -> string, s: seq<Scored>, kept: seq<bool>)
    requires run in db.runs && Recalled(Told(db, Candidates(db.runs, run, window), text), s) && |kept| == |s|
    ensures forall t | t in KeptTurns(s, kept) :: IsTold(db, Candidates(db.runs, run, window), text, t)
  {
    forall t | t in KeptTurns(s, kept) ensures IsTold(db, Candidates(db.runs, run, window), text, t) {
      KeptTurnsAre(s, kept, t);
      var i :| 0 <= i < |s| && kept[i] && s[i].turn == t;
      RecalledAreTold(db, run, window, text, s, s[i]);
    }
  }

  lemma OrderKept(a: map<RunId, Run>, b: map<RunId, Run>, run: RunId, ids: seq<RunId>)
    requires SameProject(a, b, run) && OldestFirst(a, ids) && Set(ids) <= ProjectRuns(a, a[run].project)
    ensures OldestFirst(b, ids)
  {
    forall i | 0 <= i < |ids| ensures ids[i] in b && b[ids[i]] == a[ids[i]] {
      assert ids[i] in Set(ids);
    }
  }

  lemma LatestWithin(turns: seq<RunId>, less: nat, window: nat)
    requires less <= window
    ensures Set(Latest(turns, less)) <= Set(Latest(turns, window))
  {
    var more := Latest(turns, window);
    assert Latest(turns, less) == more[|more| - |Latest(turns, less)|..];
  }

  /** The turns told and the turns recalled are different finished turns of the run's project, each list
      oldest first. */
  predicate InOrderApart(runs: map<RunId, Run>, run: RunId, told: seq<RunId>, recalled: seq<RunId>)
    requires run in runs
  {
    OldestFirst(runs, told) && OldestFirst(runs, recalled) && Set(told) !! Set(recalled)
    && Set(told) + Set(recalled) <= ProjectRuns(runs, runs[run].project) - {run}
  }

  lemma KeptAreRecalled(runs: map<RunId, Run>, s: seq<Scored>, kept: seq<bool>)
    requires |kept| == |s| && OldestFirst(runs, ScoredRuns(s))
    ensures OldestFirst(runs, RecalledRuns(KeptTurns(s, kept))) && Set(RecalledRuns(KeptTurns(s, kept))) <= Set(ScoredRuns(s))
  {
    KeptStayInOrder(runs, s, kept);
  }

  lemma FittedTells(db: Db, run: RunId, task: NodeId, tools: seq<string>, step: StepInput, fit: Fit, note: string -> string)
    requires Inv(db) && IsRunning(db, run)
    requires |fit.kept| == |step.recalled| && Fitted(db, run, task, tools, step, fit, note).Ok?
    ensures var ir := Fitted(db, run, task, tools, step, fit, note).value;
      OutcomeRuns(ir.recent) == Earlier(db.runs, run, fit.window) && ir.recalled == KeptTurns(step.recalled, fit.kept)
      && ir.review == step.review
  {
    RecentTurnsTold(db, run, fit.window);
    ToldRuns(db, Earlier(db.runs, run, fit.window), RecentOutcomes(db, run, fit.window));
  }

  lemma RecalledApart(db: Db, later: Db, run: RunId, window: nat, less: nat, text: seq<Event> -> string, s: seq<Scored>, kept: seq<bool>)
    requires Inv(db) && Inv(later) && IsRunning(db, run) && IsRunning(later, run) && SameProject(db.runs, later.runs, run)
    requires Recalled(Told(db, Candidates(db.runs, run, window), text), s) && |kept| == |s| && less <= window
    ensures InOrderApart(later.runs, run, Earlier(later.runs, run, less), RecalledRuns(KeptTurns(s, kept)))
  {
    RecalledAreCandidates(db, run, window, text, s);
    TurnsPartition(db, run, window);
    ConversationStays(db, later, run);
    SameEarlier(db.runs, later.runs, run);
    LatestWithin(EarlierTurns(later.runs, run), less, window);
    EarlierInRuns(later.runs, run, less);
    OrderKept(db.runs, later.runs, run, ScoredRuns(s));
    KeptAreRecalled(later.runs, s, kept);
  }

  /** Whatever a run recalled, and whatever has happened since, its IR carries what is left of it oldest
      first, each turn told whole as it was recalled, beside the turns it tells and never one of them; and it shows
      the review it is to address. */
  lemma RecalledInIr(db: Db, steps: seq<Step>, run: RunId, task: NodeId, tools: seq<string>, step: StepInput, window: nat, fit: Fit,
                     text: seq<Event> -> string, note: string -> string)
    requires Inv(db) && IsRunning(db, run) && IsRunning(Execute(db, steps, note), run)
    requires Recalled(Told(db, Candidates(db.runs, run, window), text), step.recalled)
    requires |fit.kept| == |step.recalled| && fit.window <= window
    requires Fitted(Execute(db, steps, note), run, task, tools, step, fit, note).Ok?
    ensures var later := Execute(db, steps, note);
      var ir := Fitted(later, run, task, tools, step, fit, note).value;
      InOrderApart(later.runs, run, OutcomeRuns(ir.recent), RecalledRuns(ir.recalled))
      && (forall t | t in ir.recalled :: IsTold(db, Candidates(db.runs, run, window), text, t)) && ir.review == step.review
  {
    var later := Execute(db, steps, note);
    ExecuteKept(db, steps, note);
    ProjectStays(db, steps, note, run);
    FittedTells(later, run, task, tools, step, fit, note);
    RecalledApart(db, later, run, window, fit.window, text, step.recalled, fit.kept);
    KeptAreTold(db, run, window, text, step.recalled, fit.kept);
  }
}
