/** Findings a run ends with, recorded as observations: which nodes a batch adds, and when a finding is
    recorded twice. */
module Findings {
  import opened Common
  import opened Records
  import opened Database
  import opened Invariants
  import opened RunSteps
  import opened Responses
  import opened Histories
  import opened Reachable
  import opened Scenario

  /** Findings the project had no node for when the batch began. */
  predicate IsNew(db: Db, run: RunId, finding: Finding)
    requires run in db.runs
  {
    !AlreadyFound(db, db.runs[run].project, finding)
  }

  function NodeFor(project: ProjectId, finding: Finding, now: Instant): Node {
    Node(project, ObservationNode, LintFinding(finding.rule, finding.file, finding.functionName), now)
  }

  function NewIds(db: Db, run: RunId, findings: seq<Finding>, ids: seq<nat>): set<NodeId>
    requires run in db.runs && |ids| == |findings|
  {
    set i | 0 <= i < |findings| && IsNew(db, run, findings[i]) :: ids[i]
  }

  lemma NewIdsAppend(db: Db, run: RunId, findings: seq<Finding>, ids: seq<nat>)
    requires run in db.runs && |ids| == |findings| > 0
    ensures var k := |findings| - 1;
      NewIds(db, run, findings, ids)
        == NewIds(db, run, findings[..k], ids[..k]) + if IsNew(db, run, findings[k]) then {ids[k]} else {}
  {
    var k := |findings| - 1;
    forall n | n in NewIds(db, run, findings[..k], ids[..k]) ensures n in NewIds(db, run, findings, ids) {
      var i :| 0 <= i < k && IsNew(db, run, findings[..k][i]) && ids[..k][i] == n;
      assert findings[i] == findings[..k][i] && ids[i] == n;
    }
    forall n | n in NewIds(db, run, findings, ids) && !(IsNew(db, run, findings[k]) && n == ids[k])
      ensures n in NewIds(db, run, findings[..k], ids[..k])
    {
      var i :| 0 <= i < |findings| && IsNew(db, run, findings[i]) && ids[i] == n;
      assert i < k && findings[..k][i] == findings[i] && ids[..k][i] == n;
    }
  }

  /** What a batch leaves: the old nodes, and one observation per new finding under its own id. */
  predicate Adds(db: Db, run: RunId, findings: seq<Finding>, ids: seq<nat>, now: Instant, db': Db)
    requires run in db.runs && |ids| == |findings|
  {
    db'.nodes.Keys == db.nodes.Keys + NewIds(db, run, findings, ids)
    && (forall n | n in db.nodes :: n in db'.nodes && db'.nodes[n] == db.nodes[n])
    && (forall i | 0 <= i < |findings| && IsNew(db, run, findings[i]) ::
          ids[i] !in db.nodes && ids[i] in db'.nodes && db'.nodes[ids[i]] == NodeFor(db.runs[run].project, findings[i], now))
    && NewDistinct(db, run, findings, ids)
  }

  predicate NewDistinct(db: Db, run: RunId, findings: seq<Finding>, ids: seq<nat>)
    requires run in db.runs && |ids| == |findings|
  {
    forall i, j | 0 <= i < j < |findings| && IsNew(db, run, findings[i]) && IsNew(db, run, findings[j]) :: ids[i] != ids[j]
  }

  lemma NewDistinctAppend(db: Db, run: RunId, findings: seq<Finding>, ids: seq<nat>)
    requires run in db.runs && |ids| == |findings| > 0
    requires var k := |findings| - 1;
      NewDistinct(db, run, findings[..k], ids[..k])
      && (IsNew(db, run, findings[k]) ==> forall i | 0 <= i < k && IsNew(db, run, findings[i]) :: ids[i] != ids[k])
    ensures NewDistinct(db, run, findings, ids)
  {
    var k := |findings| - 1;
    forall i | 0 <= i < k ensures findings[..k][i] == findings[i] && ids[..k][i] == ids[i] {}
  }

  lemma AddsOne(db: Db, run: RunId, findings: seq<Finding>, ids: seq<nat>, now: Instant, rest: Db, db': Db)
    requires run in db.runs && |ids| == |findings| > 0
    requires var k := |findings| - 1;
      Adds(db, run, findings[..k], ids[..k], now, rest)
      && if IsNew(db, run, findings[k])
         then ids[k] !in rest.nodes && db'.nodes == rest.nodes[ids[k] := NodeFor(db.runs[run].project, findings[k], now)]
         else db' == rest
    ensures Adds(db, run, findings, ids, now, db')
  {
    var k := |findings| - 1;
    NewIdsAppend(db, run, findings, ids);
    forall i | 0 <= i < k ensures findings[..k][i] == findings[i] && ids[..k][i] == ids[i] {}
    forall i | 0 <= i < k && IsNew(db, run, findings[i]) ensures ids[i] in rest.nodes {
      assert IsNew(db, run, findings[..k][i]) && ids[..k][i] == ids[i];
    }
    NewDistinctAppend(db, run, findings, ids);
  }

  /** Recording a batch adds exactly one observation for each finding that was new when it began. */
  lemma {:induction false} RecordsEachNew(db: Db, run: RunId, findings: seq<Finding>, ids: seq<nat>, refs: seq<string>, now: Instant, db': Db)
    requires run in db.runs && |ids| == |findings| == |refs|
    requires RecordFindings(db, run, findings, ids, refs, now) == Ok(db')
    ensures Adds(db, run, findings, ids, now, db')
    decreases |findings|
  {
    if findings != [] {
      var k := |findings| - 1;
      var rest := RecordFindings(db, run, findings[..k], ids[..k], refs[..k], now);
      RecordsEachNew(db, run, findings[..k], ids[..k], refs[..k], now, rest.value);
      AddsOne(db, run, findings, ids, now, rest.value, db');
    }
  }

  /** A node that remembers the finding: an observation of the project with its rule, its file and its function. */
  predicate Remembers(nodes: map<NodeId, Node>, project: ProjectId, finding: Finding, n: NodeId) {
    n in nodes && nodes[n].project == project && nodes[n].nodeType == ObservationNode
    && nodes[n].payload == LintFinding(finding.rule, finding.file, finding.functionName)
  }

  predicate Remembered(nodes: map<NodeId, Node>, project: ProjectId, finding: Finding) { exists n :: n in nodes && Remembers(nodes, project, finding, n) }

  lemma OldIsRemembered(db: Db, run: RunId, finding: Finding)
    requires run in db.runs
    ensures IsNew(db, run, finding) <==> !Remembered(db.nodes, db.runs[run].project, finding)
  {
    if !IsNew(db, run, finding) {
      var n :| n in db.nodes && db.nodes[n].project == db.runs[run].project && db.nodes[n].nodeType == ObservationNode
        && db.nodes[n].payload == LintFinding(finding.rule, finding.file, finding.functionName);
      assert Remembers(db.nodes, db.runs[run].project, finding, n);
    }
  }

  lemma StaysRemembered(nodes: map<NodeId, Node>, more: map<NodeId, Node>, project: ProjectId, finding: Finding)
    requires Remembered(nodes, project, finding) && forall n | n in nodes :: n in more && more[n] == nodes[n]
    ensures Remembered(more, project, finding)
  {
    var n :| n in nodes && Remembers(nodes, project, finding, n);
    assert Remembers(more, project, finding, n);
  }

  /** Afterwards the project has a node for every finding of the batch. */
  lemma EachIsRemembered(db: Db, run: RunId, findings: seq<Finding>, ids: seq<nat>, refs: seq<string>, now: Instant, db': Db, i: nat)
    requires run in db.runs && |ids| == |findings| == |refs| && i < |findings|
    requires RecordFindings(db, run, findings, ids, refs, now) == Ok(db')
    ensures Remembered(db'.nodes, db.runs[run].project, findings[i])
  {
    RecordsEachNew(db, run, findings, ids, refs, now, db');
    if IsNew(db, run, findings[i]) {
      assert Remembers(db'.nodes, db.runs[run].project, findings[i], ids[i]);
    } else {
      OldIsRemembered(db, run, findings[i]);
      StaysRemembered(db.nodes, db'.nodes, db.runs[run].project, findings[i]);
    }
  }

  /** And no node was added for a finding it had one for before. */
  lemma NoneForRemembered(db: Db, run: RunId, findings: seq<Finding>, ids: seq<nat>, refs: seq<string>, now: Instant, db': Db, n: NodeId, i: nat)
    requires run in db.runs && |ids| == |findings| == |refs| && i < |findings|
    requires RecordFindings(db, run, findings, ids, refs, now) == Ok(db')
    requires n in db'.nodes && n !in db.nodes && Remembers(db'.nodes, db.runs[run].project, findings[i], n)
    ensures !Remembered(db.nodes, db.runs[run].project, findings[i])
  {
    RecordsEachNew(db, run, findings, ids, refs, now, db');
    AddedIsNew(db, run, findings, ids, now, db', n, i);
    OldIsRemembered(db, run, findings[i]);
  }

  lemma AddedIsNew(db: Db, run: RunId, findings: seq<Finding>, ids: seq<nat>, now: Instant, db': Db, n: NodeId, i: nat)
    requires run in db.runs && |ids| == |findings| && Adds(db, run, findings, ids, now, db') && i < |findings|
    requires n in db'.nodes && n !in db.nodes && Remembers(db'.nodes, db.runs[run].project, findings[i], n)
    ensures IsNew(db, run, findings[i])
  {
    assert n in NewIds(db, run, findings, ids);
    var k :| 0 <= k < |findings| && IsNew(db, run, findings[k]) && ids[k] == n;
    SamePayload(db.runs[run].project, findings[k], findings[i], now);
  }

  /** Each rule, file and function gets at most one of the batch's nodes. */
  predicate OneNodeEach(db: Db, db': Db) {
    forall a, b | a in db'.nodes && b in db'.nodes && a !in db.nodes && b !in db.nodes
                  && db'.nodes[a].payload == db'.nodes[b].payload :: a == b
  }

  predicate NoNewRepeated(db: Db, run: RunId, findings: seq<Finding>)
    requires run in db.runs
  {
    forall i, j | 0 <= i < j < |findings| && findings[i] == findings[j] :: !IsNew(db, run, findings[i])
  }

  lemma TwiceIfRepeated(db: Db, run: RunId, findings: seq<Finding>, ids: seq<nat>, now: Instant, db': Db, i: nat, j: nat)
    requires run in db.runs && |ids| == |findings| && Adds(db, run, findings, ids, now, db')
    requires i < j < |findings| && findings[i] == findings[j] && IsNew(db, run, findings[i])
    ensures ids[i] in db'.nodes && ids[j] in db'.nodes && ids[i] !in db.nodes && ids[j] !in db.nodes
    ensures ids[i] != ids[j] && db'.nodes[ids[i]].payload == db'.nodes[ids[j]].payload
  {
  }

  lemma OnceIfDistinct(db: Db, run: RunId, findings: seq<Finding>, ids: seq<nat>, now: Instant, db': Db, a: NodeId, b: NodeId)
    requires run in db.runs && |ids| == |findings| && Adds(db, run, findings, ids, now, db') && NoNewRepeated(db, run, findings)
    requires a in db'.nodes && b in db'.nodes && a !in db.nodes && b !in db.nodes && db'.nodes[a].payload == db'.nodes[b].payload
    ensures a == b
  {
    assert a in NewIds(db, run, findings, ids) && b in NewIds(db, run, findings, ids);
    var i :| 0 <= i < |findings| && IsNew(db, run, findings[i]) && ids[i] == a;
    var j :| 0 <= j < |findings| && IsNew(db, run, findings[j]) && ids[j] == b;
    SamePayload(db.runs[run].project, findings[i], findings[j], now);
  }

  lemma SamePayload(project: ProjectId, a: Finding, b: Finding, now: Instant)
    requires NodeFor(project, a, now).payload == NodeFor(project, b, now).payload
    ensures a == b
  {
  }

  /** A batch records no finding twice exactly when none that is new is repeated in it. */
  lemma RecordedOnceExactly(db: Db, run: RunId, findings: seq<Finding>, ids: seq<nat>, refs: seq<string>, now: Instant, db': Db)
    requires run in db.runs && |ids| == |findings| == |refs|
    requires RecordFindings(db, run, findings, ids, refs, now) == Ok(db')
    ensures OneNodeEach(db, db') <==> NoNewRepeated(db, run, findings)
  {
    RecordsEachNew(db, run, findings, ids, refs, now, db');
    if !NoNewRepeated(db, run, findings) {
      var i, j :| 0 <= i < j < |findings| && findings[i] == findings[j] && IsNew(db, run, findings[i]);
      TwiceIfRepeated(db, run, findings, ids, now, db', i, j);
    } else {
      forall a, b | a in db'.nodes && b in db'.nodes && a !in db.nodes && b !in db.nodes
                    && db'.nodes[a].payload == db'.nodes[b].payload
        ensures a == b
      {
        OnceIfDistinct(db, run, findings, ids, now, db', a, b);
      }
    }
  }

  lemma RecordsOne(db: Db, run: RunId, finding: Finding, id: NodeId, ref: string, now: Instant)
    requires IsRunning(db, run) && db.runs[run].project in db.projects && id !in db.nodes && IsNew(db, run, finding)
    ensures var r := RecordFindings(db, run, [finding], [id], [ref], now);
      r.Ok? && r.value.runs == db.runs && r.value.projects == db.projects
      && r.value.nodes == db.nodes[id := NodeFor(db.runs[run].project, finding, now)]
  {
    assert [finding][..0] == [] && [id][..0] == [] && [ref][..0] == [];
    assert RecordFindings(db, run, [], [], [], now) == Ok(db);
  }

  /** The witness: in any run still running, two equal findings, new and with fresh ids, are recorded
      as two nodes with one payload. */
  lemma RecordedTwice(db: Db, run: RunId, finding: Finding, a: NodeId, b: NodeId, ref: string, again: string, now: Instant)
    requires IsRunning(db, run) && db.runs[run].project in db.projects
    requires a !in db.nodes && b !in db.nodes && a != b && IsNew(db, run, finding)
    ensures var r := RecordFindings(db, run, [finding, finding], [a, b], [ref, again], now);
      r.Ok? && a in r.value.nodes && b in r.value.nodes && r.value.nodes[a].payload == r.value.nodes[b].payload
      && !OneNodeEach(db, r.value)
  {
    RecordsOne(db, run, finding, a, ref, now);
    assert [finding, finding][..1] == [finding] && [a, b][..1] == [a] && [ref, again][..1] == [ref];
    var r := RecordFindings(db, run, [finding, finding], [a, b], [ref, again], now);
    assert r.Ok?;
    RecordsEachNew(db, run, [finding, finding], [a, b], [ref, again], now, r.value);
    assert IsNew(db, run, [finding, finding][0]) && IsNew(db, run, [finding, finding][1]);
    assert [a, b][0] in r.value.nodes && [a, b][1] in r.value.nodes;
  }

  lemma RememberApplies(db: Db, run: RunId, findings: seq<Finding>, ids: seq<nat>, refs: seq<string>, now: Instant, note: string -> string)
    requires IsRunning(db, run) && |ids| == |findings| == |refs| && RecordFindings(db, run, findings, ids, refs, now).Ok?
    ensures Apply(db, Remember(run, findings, ids, refs, now), note) == RecordFindings(db, run, findings, ids, refs, now).value
  {
    var step := Remember(run, findings, ids, refs, now);
    assert Permitted(db, step);
    assert Outcome(db, step, note) == RecordFindings(db, run, findings, ids, refs, now);
  }

  /** A run of a store that can be reached, ending with the same finding twice, records it twice. */
  lemma RepeatedFindingInStore(finding: Finding, note: string -> string)
    ensures var step := Remember(0, [finding, finding], [1, 2], ["review-finding-1", "review-finding-2"], 0);
      var db, db' := Execute(EMPTY, FirstRunSteps(), note), Execute(EMPTY, FirstRunSteps() + [step], note);
      !OneNodeEach(db, db') && 1 in db'.nodes && 2 in db'.nodes && db'.nodes[1].payload == db'.nodes[2].payload
  {
    var db := Execute(EMPTY, FirstRunSteps(), note);
    var findings, refs := [finding, finding], ["review-finding-1", "review-finding-2"];
    FirstRun(note);
    ExecuteAppend(EMPTY, FirstRunSteps(), Remember(0, findings, [1, 2], refs, 0), note);
    RecordedTwice(db, 0, finding, 1, 2, refs[0], refs[1], 0);
    RememberApplies(db, 0, findings, [1, 2], refs, 0, note);
  }
}
