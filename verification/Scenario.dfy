/** A small store that can be reached: one project, one conversation, and its first run, still running. */
module Scenario {
  import opened Common
  import opened Records
  import opened Database
  import opened Invariants
  import opened RunSteps
  import opened Responses
  import opened Histories
  import opened Reachable

  /** Starting changes the run and node tables in just one place each. */
  lemma StartedTables(db: Db, conversation: ConversationId, run: RunId, task: NodeId, text: string, now: Instant)
    requires Domains(db) && RunsOk(db) && StartRun(db, conversation, run, task, text, now).Ok?
    ensures conversation in db.conversations
    ensures var db' := StartRun(db, conversation, run, task, text, now).value;
      db'.runs == db.runs[run := NewRun(db, conversation, now)] && db'.projects == db.projects && db'.edges == db.edges
      && db'.nodes == db.nodes[task := Node(db.conversations[conversation], ConversationNode, UserTurn(text), now)]
  {
    StartsRun(db, conversation, run, task, text, now);
  }

  function FirstRunSteps(): seq<Step> {
    [AddProject(0), AddConversation(0, 0)] + [Start(0, 0, 0, "hi", 0)]
  }

  lemma Prepared(note: string -> string)
    ensures Execute(EMPTY, [AddProject(0), AddConversation(0, 0)], note) == EMPTY.(projects := {0}, conversations := map[0 := 0])
  {
    assert [AddProject(0), AddConversation(0, 0)] == [] + [AddProject(0)] + [AddConversation(0, 0)];
    ExecuteAppend(EMPTY, [], AddProject(0), note);
    ExecuteAppend(EMPTY, [] + [AddProject(0)], AddConversation(0, 0), note);
    assert EMPTY.projects + {0} == {0};
    assert map[][0 := 0] == map[0 := 0];
  }

  lemma StartApplies(db: Db, conversation: ConversationId, run: RunId, task: NodeId, text: string, now: Instant, note: string -> string)
    requires StartRun(db, conversation, run, task, text, now).Ok?
    ensures Apply(db, Start(conversation, run, task, text, now), note) == StartRun(db, conversation, run, task, text, now).value
  {
  }

  lemma ReadyToStart()
    ensures var db := EMPTY.(projects := {0}, conversations := map[0 := 0]);
      Domains(db) && RunsOk(db) && StartRun(db, 0, 0, 0, "hi", 0).Ok?
  {
    StartsRun(EMPTY.(projects := {0}, conversations := map[0 := 0]), 0, 0, 0, "hi", 0);
  }

  lemma FirstRun(note: string -> string)
    ensures var db := Execute(EMPTY, FirstRunSteps(), note);
      GoodRunning(db, 0) && db.runs[0].project == 0 && db.projects == {0} && db.edges == []
      && db.nodes == map[0 := Node(0, ConversationNode, UserTurn("hi"), 0)]
  {
    var db := EMPTY.(projects := {0}, conversations := map[0 := 0]);
    Prepared(note);
    ReadyToStart();
    ExecuteAppend(EMPTY, [AddProject(0), AddConversation(0, 0)], Start(0, 0, 0, "hi", 0), note);
    StartApplies(db, 0, 0, 0, "hi", 0, note);
    StartedTables(db, 0, 0, 0, "hi", 0);
    AlwaysInv(FirstRunSteps(), note);
  }
}
