/** Which earlier turns a run's IR carries: the latest of its conversation as outcomes, the rest of
    the project as candidates for recall. */
module Turns {
  import opened Common
  import opened Order
  import opened Records
  import opened Database
  import opened Invariants
  import opened RunSteps

  // ---- Listing runs by their keys ----

  predicate OldestFirst(runs: map<RunId, Run>, ids: seq<RunId>) {
    (forall i | 0 <= i < |ids| :: ids[i] in runs)
    && forall i, j | 0 <= i < j < |ids| :: ids[i] in runs && ids[j] in runs && Less(RunKey(runs, ids[i]), RunKey(runs, ids[j]))
  }

  predicate IsRunKey(runs: map<RunId, Run>, k: Key) { k.id in runs && k == RunKey(runs, k.id) }

  lemma RunKeysInOrder(runs: map<RunId, Run>, sorted: seq<Key>)
    requires Ascending(sorted) && forall i | 0 <= i < |sorted| :: IsRunKey(runs, sorted[i])
    ensures OldestFirst(runs, Ids(sorted))
  {
    var ids := Ids(sorted);
    forall i, j | 0 <= i < j < |ids| ensures ids[i] in runs && ids[j] in runs && Less(RunKey(runs, ids[i]), RunKey(runs, ids[j])) {
      assert IsRunKey(runs, sorted[i]) && IsRunKey(runs, sorted[j]) && Less(sorted[i], sorted[j]);
    }
  }

  lemma ListsRun(runs: map<RunId, Run>, keys: set<Key>, r: RunId)
    requires forall k | k in keys :: IsRunKey(runs, k)
    ensures r in Ids(Sorted(keys)) <==> r in runs && RunKey(runs, r) in keys
  {
    var sorted := Sorted(keys);
    if r in Ids(sorted) {
      var i :| 0 <= i < |sorted| && Ids(sorted)[i] == r;
      assert sorted[i] in sorted && IsRunKey(runs, sorted[i]);
    }
    if r in runs && RunKey(runs, r) in keys {
      assert RunKey(runs, r) in sorted;
      var i :| 0 <= i < |sorted| && sorted[i] == RunKey(runs, r);
      assert Ids(sorted)[i] == r;
    }
  }

  lemma ListsRuns(runs: map<RunId, Run>, keys: set<Key>)
    requires forall k | k in keys :: IsRunKey(runs, k)
    ensures OldestFirst(runs, Ids(Sorted(keys)))
    ensures forall r :: r in Ids(Sorted(keys)) <==> r in runs && RunKey(runs, r) in keys
  {
    var sorted := Sorted(keys);
    forall i | 0 <= i < |sorted| ensures IsRunKey(runs, sorted[i]) {
      assert sorted[i] in sorted;
    }
    RunKeysInOrder(runs, sorted);
    forall r ensures r in Ids(sorted) <==> r in runs && RunKey(runs, r) in keys {
      ListsRun(runs, keys, r);
    }
  }

  // ---- The conversation, backwards ----

  /** The conversation's turns before `run`, oldest first. */
  function EarlierTurns(runs: map<RunId, Run>, run: RunId): seq<RunId>
    requires run in runs
  {
    Ids(Sorted(EarlierInConversation(runs, run)))
  }

  function Latest(ids: seq<RunId>, window: nat): seq<RunId> {
    if |ids| <= window then ids else ids[|ids| - window..]
  }

  /** The last `window` of them. */
  function Earlier(runs: map<RunId, Run>, run: RunId, window: nat): seq<RunId>
    requires run in runs
  {
    Latest(EarlierTurns(runs, run), window)
  }

  lemma LessTrans(a: Key, b: Key, c: Key)
    requires Less(a, b) && Less(b, c)
    ensures Less(a, c)
  {
  }

  /** Walking back one turn drops the last of the earlier turns. */
  lemma EarlierSets(runs: map<RunId, Run>, run: RunId, p: RunId)
    requires run in runs && PreviousRun(runs, run) == Some(p)
    ensures p in runs && runs[p].conversation == runs[run].conversation
    ensures EarlierInConversation(runs, run) == EarlierInConversation(runs, p) + {RunKey(runs, p)}
    ensures forall k | k in EarlierInConversation(runs, p) :: Less(k, RunKey(runs, p))
  {
    var all := EarlierInConversation(runs, run);
    assert all != {};
    LastIsGreatest(all);
    var last := Sorted(all)[|Sorted(all)| - 1];
    assert last == RunKey(runs, p);
    forall k ensures k in all <==> k in EarlierInConversation(runs, p) || k == last {
      if k in EarlierInConversation(runs, p) {
        LessTrans(k, last, RunKey(runs, run));
      }
    }
  }

  lemma IdsAppend(keys: seq<Key>, k: Key)
    ensures Ids(keys + [k]) == Ids(keys) + [k.id]
  {
  }

  /** What stepping back from `run` gives. */
  lemma StepsBack(runs: map<RunId, Run>, run: RunId)
    requires run in runs
    ensures PreviousRun(runs, run).None? ==> EarlierTurns(runs, run) == []
    ensures PreviousRun(runs, run).Some? ==>
      PreviousRun(runs, run).value in runs
      && EarlierTurns(runs, run) == EarlierTurns(runs, PreviousRun(runs, run).value) + [PreviousRun(runs, run).value]
  {
    if PreviousRun(runs, run).Some? {
      var p := PreviousRun(runs, run).value;
      EarlierSets(runs, run, p);
      SortedAppend(EarlierInConversation(runs, p), RunKey(runs, p));
      IdsAppend(Sorted(EarlierInConversation(runs, p)), RunKey(runs, p));
    }
  }

  // ---- How a turn ended ----

  function FirstMessage(log: seq<Event>): Option<string>
    decreases |log|
  {
    if log == [] then None
    else if log[0].data.MessageRecorded? then Some(log[0].data.text)
    else FirstMessage(log[1..])
  }

  function LastProse(log: seq<Event>): Option<string> {
    if log == [] then None
    else if log[|log| - 1].data.ResponseValidated? then Some(log[|log| - 1].data.response.prose)
    else LastProse(log[..|log| - 1])
  }

  function LastFailure(log: seq<Event>): Option<string> {
    if log == [] then None
    else if log[|log| - 1].data.RunFailed? then Some(log[|log| - 1].data.message)
    else LastFailure(log[..|log| - 1])
  }

  /** The turn as IR shows it; a run still running is not shown. */
  function OutcomeOf(db: Db, r: RunId): Option<TurnOutcome>
    requires r in db.runs
  {
    var log := Log(db.events, r);
    match db.runs[r].status
    case Completed => Some(TurnOutcome(r, Completed, FirstMessage(log), None, None, LastProse(log)))
    case Failed =>
      var code := if db.runs[r].errorCode.Some? then db.runs[r].errorCode.value else Internal;
      Some(TurnOutcome(r, Failed, FirstMessage(log), Some(code), LastFailure(log), None))
    case Running => None
  }

  function Outcomes(db: Db, turns: seq<RunId>): seq<TurnOutcome>
    requires forall i | 0 <= i < |turns| :: turns[i] in db.runs
  {
    if turns == [] then []
    else
      var rest := Outcomes(db, turns[..|turns| - 1]);
      var outcome := OutcomeOf(db, turns[|turns| - 1]);
      if outcome.Some? then rest + [outcome.value] else rest
  }

  lemma EarlierInRuns(runs: map<RunId, Run>, run: RunId, window: nat)
    requires run in runs
    ensures OldestFirst(runs, Earlier(runs, run, window))
  {
    ListsRuns(runs, EarlierInConversation(runs, run));
    LatestInOrder(runs, EarlierTurns(runs, run), window);
  }

  lemma LatestInOrder(runs: map<RunId, Run>, ids: seq<RunId>, window: nat)
    requires OldestFirst(runs, ids)
    ensures OldestFirst(runs, Latest(ids, window))
  {
  }

  function RecentOutcomes(db: Db, run: RunId, window: nat): seq<TurnOutcome>
    requires run in db.runs
  {
    EarlierInRuns(db.runs, run, window);
    Outcomes(db, Earlier(db.runs, run, window))
  }

  function Reversed(s: seq<RunId>): (r: seq<RunId>)
    ensures |r| == |s| && forall i | 0 <= i < |s| :: r[i] == s[|s| - 1 - i]
  {
    if s == [] then [] else Reversed(s[1..]) + [s[0]]
  }

  /** A walk back from `run` that stands at `cursor` and has found `found`, newest first. */
  predicate Walked(runs: map<RunId, Run>, run: RunId, cursor: RunId, found: seq<RunId>)
    requires run in runs
  {
    cursor in runs && EarlierTurns(runs, run) == EarlierTurns(runs, cursor) + Reversed(found)
  }

  lemma ReversedAppend(rest: seq<RunId>, p: RunId, found: seq<RunId>)
    ensures (rest + [p]) + Reversed(found) == rest + Reversed(found + [p])
  {
  }

  lemma WalksBack(runs: map<RunId, Run>, run: RunId, cursor: RunId, found: seq<RunId>, p: RunId)
    requires run in runs && Walked(runs, run, cursor, found) && PreviousRun(runs, cursor) == Some(p)
    ensures Walked(runs, run, p, found + [p])
  {
    StepsBack(runs, cursor);
    ReversedAppend(EarlierTurns(runs, p), p, found);
  }

  lemma WalkEnds(runs: map<RunId, Run>, run: RunId, cursor: RunId, found: seq<RunId>, window: nat)
    requires run in runs && Walked(runs, run, cursor, found) && |found| <= window
    requires |found| == window || PreviousRun(runs, cursor).None?
    ensures Reversed(found) == Earlier(runs, run, window)
  {
    if PreviousRun(runs, cursor).None? {
      StepsBack(runs, cursor);
    }
  }

  method WalkBack(runs: map<RunId, Run>, run: RunId, window: nat) returns (earlier: seq<RunId>)
    requires run in runs
    ensures earlier == Earlier(runs, run, window)
  {
    earlier := [];
    var cursor := run;
    while |earlier| < window
      invariant Walked(runs, run, cursor, earlier) && |earlier| <= window
    {
      var previous := PreviousRun(runs, cursor);
      if previous.None? {
        break;
      }
      WalksBack(runs, run, cursor, earlier, previous.value);
      cursor := previous.value;
      earlier := earlier + [cursor];
    }
    WalkEnds(runs, run, cursor, earlier, window);
    earlier := Reversed(earlier);
  }

  lemma OutcomesStep(db: Db, turns: seq<RunId>, i: nat)
    requires i < |turns| && forall k | 0 <= k < |turns| :: turns[k] in db.runs
    ensures Outcomes(db, turns[..i + 1])
      == Outcomes(db, turns[..i]) + match OutcomeOf(db, turns[i]) { case Some(outcome) => [outcome] case None => [] }
  {
    assert turns[..i + 1][..i] == turns[..i];
  }

  /** Walks back from the run, then tells the turns it found in order. */
  method RecentRunOutcomes(db: Db, run: RunId, window: nat) returns (outcomes: seq<TurnOutcome>)
    requires run in db.runs
    ensures outcomes == RecentOutcomes(db, run, window)
  {
    EarlierInRuns(db.runs, run, window);
    var earlier := WalkBack(db.runs, run, window);
    outcomes := [];
    for i := 0 to |earlier|
      invariant outcomes == Outcomes(db, earlier[..i])
    {
      OutcomesStep(db, earlier, i);
      var outcome := OutcomeOf(db, earlier[i]);
      if outcome.Some? {
        outcomes := outcomes + [outcome.value];
      }
    }
    assert earlier[..|earlier|] == earlier;
  }

  // ---- Candidates for recall ----

  function RunKeys(runs: map<RunId, Run>, project: ProjectId): set<Key> {
    set r | r in runs && runs[r].project == project :: RunKey(runs, r)
  }

  function Set(ids: seq<RunId>): set<RunId> { set r | r in ids }

  /** The finished turns among `ids` that the IR does not carry already. */
  function Outside(runs: map<RunId, Run>, ids: seq<RunId>, carried: set<RunId>): seq<RunId>
    requires forall i | 0 <= i < |ids| :: ids[i] in runs
  {
    if ids == [] then []
    else
      var rest := Outside(runs, ids[..|ids| - 1], carried);
      var last := ids[|ids| - 1];
      if last !in carried && runs[last].status != Running then rest + [last] else rest
  }

  function Candidates(runs: map<RunId, Run>, run: RunId, window: nat): seq<RunId>
    requires run in runs
  {
    ListsRuns(runs, RunKeys(runs, runs[run].project));
    Outside(runs, Ids(Sorted(RunKeys(runs, runs[run].project))), Set(Earlier(runs, run, window)) + {run})
  }

  /** What the model gets of each candidate; how a turn is told is up to `text`. */
  function Told(db: Db, turns: seq<RunId>, text: seq<Event> -> string): seq<RecalledTurn> {
    seq(|turns|, i requires 0 <= i < |turns| => RecalledTurn(turns[i], text(Log(db.events, turns[i]))))
  }

  lemma SameElements(s: seq<RunId>)
    ensures forall x :: x in Reversed(s) <==> x in s
  {
    forall x ensures x in Reversed(s) <==> x in s {
      if x in s {
        var i :| 0 <= i < |s| && s[i] == x;
        assert Reversed(s)[|s| - 1 - i] == x;
      }
    }
  }

  lemma CarriedSet(found: seq<RunId>, run: RunId)
    ensures Set([run] + found) == Set(Reversed(found)) + {run}
  {
    SameElements(found);
  }

  lemma ToldStep(db: Db, turns: seq<RunId>, i: nat, text: seq<Event> -> string)
    requires i < |turns|
    ensures Told(db, turns[..i + 1], text) == Told(db, turns[..i], text) + [RecalledTurn(turns[i], text(Log(db.events, turns[i])))]
  {
  }

  method Tell(db: Db, turns: seq<RunId>, text: seq<Event> -> string) returns (candidates: seq<RecalledTurn>)
    ensures candidates == Told(db, turns, text)
  {
    candidates := [];
    for i := 0 to |turns|
      invariant candidates == Told(db, turns[..i], text)
    {
      ToldStep(db, turns, i, text);
      candidates := candidates + [RecalledTurn(turns[i], text(Log(db.events, turns[i])))];
    }
    assert turns[..|turns|] == turns;
  }

  lemma Regroup(run: RunId, found: seq<RunId>, cursor: RunId)
    ensures [run] + found + [cursor] == [run] + (found + [cursor])
  {
  }

  /** The run and the turns its IR already shows, newest first. */
  method CarriedInIr(runs: map<RunId, Run>, run: RunId, window: nat) returns (inIr: seq<RunId>)
    requires run in runs
    ensures Set(inIr) == Set(Earlier(runs, run, window)) + {run}
  {
    inIr := [run];
    var cursor := run;
    ghost var found: seq<RunId> := [];
    while |inIr| <= window
      invariant inIr == [run] + found && Walked(runs, run, cursor, found) && |found| <= window
    {
      var previous := PreviousRun(runs, cursor);
      if previous.None? {
        break;
      }
      WalksBack(runs, run, cursor, found, previous.value);
      cursor := previous.value;
      Regroup(run, found, cursor);
      inIr, found := inIr + [cursor], found + [cursor];
    }
    WalkEnds(runs, run, cursor, found, window);
    CarriedSet(found, run);
  }

  method RecallCandidates(db: Db, run: RunId, window: nat, text: seq<Event> -> string)
    returns (r: Result<seq<RecalledTurn>, StoreError>)
    ensures r.Err? <==> run !in db.runs
    ensures r.Ok? ==> r.value == Told(db, Candidates(db.runs, run, window), text)
  {
    if run !in db.runs {
      return Err(NotFound);
    }
    var inIr := CarriedInIr(db.runs, run, window);
    ListsRuns(db.runs, RunKeys(db.runs, db.runs[run].project));
    var turns := Outside(db.runs, Ids(Sorted(RunKeys(db.runs, db.runs[run].project))), Set(inIr));
    var candidates := Tell(db, turns, text);
    return Ok(candidates);
  }

  // ---- Recalled turns and their relevance ----

  const RECALL_THRESHOLD: real := 0.5

  datatype Scored = Scored(turn: RecalledTurn, score: real)

  function ScoredRuns(s: seq<Scored>): (ids: seq<RunId>)
    ensures |ids| == |s|
  {
    seq(|s|, i requires 0 <= i < |s| => s[i].turn.run)
  }

  /** Each candidate with the score it got; a longer list is cut to the shorter. */
  function Judged(candidates: seq<RecalledTurn>, scores: seq<real>): (s: seq<Scored>) {
    seq(if |scores| < |candidates| then |scores| else |candidates|,
        i requires 0 <= i < |scores| && i < |candidates| => Scored(candidates[i], scores[i]))
  }

  function Relevant(s: seq<Scored>): seq<Scored> {
    if s == [] then []
    else
      var rest := Relevant(s[..|s| - 1]);
      if s[|s| - 1].score >= RECALL_THRESHOLD then rest + [s[|s| - 1]] else rest
  }

  /** What Jev judged relevant. */
  function SelectRecalled(candidates: seq<RecalledTurn>, scores: seq<real>): seq<Scored> { Relevant(Judged(candidates, scores)) }

  lemma QuotientTimes(a: real, c: real)
    requires c > 0.0
    ensures a / c * c == a
  {
  }

  lemma QuotientIsOne(c: real)
    requires c > 0.0
    ensures c / c == 1.0
  {
  }

  lemma ProductsOrder(x: real, y: real, c: real)
    requires c > 0.0 && x * c < y * c
    ensures x < y
  {
    assert (y - x) * c == y * c - x * c;
  }

  /** A larger part of the same whole is a larger ratio. */
  lemma RatioAscends(a: real, b: real, c: real)
    requires a < b && c > 0.0
    ensures a / c < b / c
  {
    QuotientTimes(a, c);
    QuotientTimes(b, c);
    ProductsOrder(a / c, b / c, c);
  }

  lemma RankAscends(i: nat, j: nat, count: nat)
    requires i < j < count
    ensures Rank(i, count) < Rank(j, count)
  {
    RatioAscends((i + 1) as real, (j + 1) as real, count as real);
  }

  function Rank(i: nat, count: nat): real
    requires count > 0
  {
    (i + 1) as real / count as real
  }

  lemma RankWithin(i: nat, count: nat)
    requires i < count
    ensures 0.0 < Rank(i, count) <= 1.0
  {
    var part, all := (i + 1) as real, count as real;
    QuotientTimes(part, all);
    ProductsOrder(0.0, part / all, all);
    if i + 1 < count {
      ProductsOrder(part / all, 1.0, all);
    } else {
      QuotientIsOne(all);
    }
  }

  lemma RanksAscend(count: nat)
    requires count > 0
    ensures forall i | 0 <= i < count :: 0.0 < Rank(i, count) <= 1.0
    ensures forall i, j | 0 <= i < j < count :: Rank(i, count) < Rank(j, count)
  {
    forall i | 0 <= i < count ensures 0.0 < Rank(i, count) <= 1.0 { RankWithin(i, count); }
    forall i, j | 0 <= i < j < count ensures Rank(i, count) < Rank(j, count) { RankAscends(i, j, count); }
  }

  /** Every turn, the newest ranked highest. */
  function RecallEverything(candidates: seq<RecalledTurn>): (s: seq<Scored>)
    ensures |s| == |candidates|
    ensures forall i | 0 <= i < |s| :: s[i].turn == candidates[i] && 0.0 < s[i].score <= 1.0
    ensures forall i, j | 0 <= i < j < |s| :: s[i].score < s[j].score
  {
    var count := if |candidates| == 0 then 1 else |candidates|;
    RanksAscend(count);
    seq(|candidates|, i requires 0 <= i < |candidates| => Scored(candidates[i], Rank(i, count)))
  }

  // ---- Main results ----

  lemma {:induction false} OutsideHolds(runs: map<RunId, Run>, ids: seq<RunId>, carried: set<RunId>)
    requires OldestFirst(runs, ids)
    ensures OldestFirst(runs, Outside(runs, ids, carried))
    ensures forall r :: r in Outside(runs, ids, carried) <==> r in ids && r !in carried && runs[r].status != Running
  {
    if ids != [] {
      var init, last := ids[..|ids| - 1], ids[|ids| - 1];
      OutsideHolds(runs, init, carried);
      assert ids == init + [last];
      forall r | r in init ensures r in runs && Less(RunKey(runs, r), RunKey(runs, last)) {
        var i :| 0 <= i < |init| && init[i] == r;
        assert ids[i] == r;
      }
    }
  }

  function ProjectRuns(runs: map<RunId, Run>, project: ProjectId): set<RunId> {
    set r | r in runs && runs[r].project == project
  }

  lemma ProjectRunsListed(runs: map<RunId, Run>, project: ProjectId)
    ensures OldestFirst(runs, Ids(Sorted(RunKeys(runs, project))))
    ensures Set(Ids(Sorted(RunKeys(runs, project)))) == ProjectRuns(runs, project)
  {
    ListsRuns(runs, RunKeys(runs, project));
  }

  /** While a run is running, every other run of its project has finished. */
  lemma OthersFinished(db: Db, run: RunId, r: RunId)
    requires OneRunning(db.runs) && IsRunning(db, run)
    requires r in db.runs && r != run && db.runs[r].project == db.runs[run].project
    ensures db.runs[r].status != Running
  {
  }

  lemma EarlierIsEarlier(runs: map<RunId, Run>, run: RunId, window: nat, r: RunId)
    requires run in runs && r in Earlier(runs, run, window)
    ensures r in runs && runs[r].conversation == runs[run].conversation && r != run
  {
    ListsRuns(runs, EarlierInConversation(runs, run));
    assert r in EarlierTurns(runs, run);
  }

  lemma EarlierInProject(db: Db, run: RunId, window: nat)
    requires ConversationsExist(db.conversations, db.runs) && run in db.runs
    ensures Set(Earlier(db.runs, run, window)) <= ProjectRuns(db.runs, db.runs[run].project) - {run}
  {
    forall r | r in Earlier(db.runs, run, window) ensures r in ProjectRuns(db.runs, db.runs[run].project) && r != run {
      EarlierIsEarlier(db.runs, run, window, r);
      assert db.conversations[db.runs[r].conversation] == db.runs[r].project;
    }
  }

  lemma CandidateIs(db: Db, run: RunId, window: nat, r: RunId)
    requires OneRunning(db.runs) && IsRunning(db, run)
    ensures r in Candidates(db.runs, run, window)
      <==> r in ProjectRuns(db.runs, db.runs[run].project) && r !in Set(Earlier(db.runs, run, window)) && r != run
  {
    var project := db.runs[run].project;
    var all := Ids(Sorted(RunKeys(db.runs, project)));
    ProjectRunsListed(db.runs, project);
    OutsideHolds(db.runs, all, Set(Earlier(db.runs, run, window)) + {run});
    assert r in all <==> r in Set(all);
    if r in ProjectRuns(db.runs, project) && r != run {
      OthersFinished(db, run, r);
    }
  }

  lemma CandidateSet(db: Db, run: RunId, window: nat)
    requires OneRunning(db.runs) && IsRunning(db, run)
    ensures Set(Candidates(db.runs, run, window))
      == ProjectRuns(db.runs, db.runs[run].project) - Set(Earlier(db.runs, run, window)) - {run}
  {
    forall r ensures r in Set(Candidates(db.runs, run, window))
        <==> r in ProjectRuns(db.runs, db.runs[run].project) && r !in Set(Earlier(db.runs, run, window)) && r != run {
      CandidateIs(db, run, window, r);
    }
  }

  lemma Complement(all: set<RunId>, part: set<RunId>, run: RunId)
    requires run in all && part <= all - {run}
    ensures all == {run} + part + (all - part - {run}) && part !! (all - part - {run})
  {
  }

  lemma CandidatesInOrder(runs: map<RunId, Run>, run: RunId, window: nat)
    requires run in runs
    ensures OldestFirst(runs, Candidates(runs, run, window))
  {
    var all := Ids(Sorted(RunKeys(runs, runs[run].project)));
    ProjectRunsListed(runs, runs[run].project);
    OutsideHolds(runs, all, Set(Earlier(runs, run, window)) + {run});
  }

  lemma RelevantInOrder(runs: map<RunId, Run>, rest: seq<RunId>, last: RunId)
    requires OldestFirst(runs, rest) && last in runs
    requires forall r | r in rest :: r in runs && Less(RunKey(runs, r), RunKey(runs, last))
    ensures OldestFirst(runs, rest + [last])
  {
  }

  lemma {:induction false} RelevantAre(s: seq<Scored>, x: Scored)
    ensures x in Relevant(s) <==> x in s && x.score >= RECALL_THRESHOLD
  {
    if s != [] {
      RelevantAre(s[..|s| - 1], x);
      assert s == s[..|s| - 1] + [s[|s| - 1]];
    }
  }

  lemma ComesFrom(s: seq<Scored>, r: RunId)
    requires r in ScoredRuns(Relevant(s))
    ensures r in ScoredRuns(s)
  {
    var i :| 0 <= i < |Relevant(s)| && ScoredRuns(Relevant(s))[i] == r;
    RelevantAre(s, Relevant(s)[i]);
    var j :| 0 <= j < |s| && s[j] == Relevant(s)[i];
    assert ScoredRuns(s)[j] == r;
  }

  lemma PrefixBefore(runs: map<RunId, Run>, ids: seq<RunId>, r: RunId)
    requires ids != [] && OldestFirst(runs, ids) && r in ids[..|ids| - 1]
    ensures r in runs && Less(RunKey(runs, r), RunKey(runs, ids[|ids| - 1]))
  {
    var i :| 0 <= i < |ids| - 1 && ids[..|ids| - 1][i] == r;
    assert ids[i] == r;
  }

  lemma {:induction false} RelevantOldestFirst(runs: map<RunId, Run>, s: seq<Scored>)
    requires OldestFirst(runs, ScoredRuns(s))
    ensures OldestFirst(runs, ScoredRuns(Relevant(s)))
  {
    if s != [] {
      var init, last := s[..|s| - 1], s[|s| - 1];
      var ids := ScoredRuns(s);
      assert ScoredRuns(init) == ids[..|s| - 1];
      RelevantOldestFirst(runs, init);
      if last.score >= RECALL_THRESHOLD {
        var rest := ScoredRuns(Relevant(init));
        assert ids[|s| - 1] == last.turn.run && ids[|s| - 1] in runs;
        forall r | r in rest ensures r in runs && Less(RunKey(runs, r), RunKey(runs, last.turn.run)) {
          ComesFrom(init, r);
          PrefixBefore(runs, ids, r);
        }
        RelevantInOrder(runs, rest, last.turn.run);
        assert ScoredRuns(Relevant(s)) == rest + [last.turn.run];
      }
    }
  }

  /** Whether candidate `i` was scored as `x` says. */
  predicate ScoredAs(turns: seq<RecalledTurn>, scores: seq<real>, i: nat, x: Scored) {
    i < |turns| && i < |scores| && x == Scored(turns[i], scores[i])
  }

  lemma JudgedAre(turns: seq<RecalledTurn>, scores: seq<real>, x: Scored)
    ensures x in Judged(turns, scores) <==> exists i: nat :: ScoredAs(turns, scores, i, x)
  {
    var judged := Judged(turns, scores);
    if x in judged {
      var i :| 0 <= i < |judged| && judged[i] == x;
      assert ScoredAs(turns, scores, i, x);
    }
    if i: nat :| ScoredAs(turns, scores, i, x) {
      assert judged[i] == x;
    }
  }

  /** Asked what is relevant, the run recalls exactly the candidates judged at or above the threshold,
      each with its score. */
  lemma RecallsRelevant(turns: seq<RecalledTurn>, scores: seq<real>, x: Scored)
    ensures x in SelectRecalled(turns, scores) <==> x.score >= RECALL_THRESHOLD && exists i: nat :: ScoredAs(turns, scores, i, x)
  {
    RelevantAre(Judged(turns, scores), x);
    JudgedAre(turns, scores, x);
  }

  lemma PrefixOldestFirst(runs: map<RunId, Run>, ids: seq<RunId>, n: nat)
    requires OldestFirst(runs, ids) && n <= |ids|
    ensures OldestFirst(runs, ids[..n])
  {
  }

  lemma JudgedRuns(db: Db, ids: seq<RunId>, text: seq<Event> -> string, scores: seq<real>)
    ensures var judged := Judged(Told(db, ids, text), scores); |judged| <= |ids| && ScoredRuns(judged) == ids[..|judged|]
  {
  }

  /** They come oldest first. */
  lemma RecallsOldestFirst(db: Db, run: RunId, window: nat, text: seq<Event> -> string, scores: seq<real>)
    requires run in db.runs
    ensures OldestFirst(db.runs, ScoredRuns(SelectRecalled(Told(db, Candidates(db.runs, run, window), text), scores)))
  {
    var ids := Candidates(db.runs, run, window);
    var judged := Judged(Told(db, ids, text), scores);
    CandidatesInOrder(db.runs, run, window);
    JudgedRuns(db, ids, text, scores);
    PrefixOldestFirst(db.runs, ids, |judged|);
    RelevantOldestFirst(db.runs, judged);
  }

  /** The run itself, the turns its IR shows and the turns it may recall are all the runs of the
      project, each once and each list oldest first, whatever the window. */
  lemma TurnsPartition(db: Db, run: RunId, window: nat)
    requires Domains(db) && OneRunning(db.runs) && IsRunning(db, run)
    ensures OldestFirst(db.runs, Earlier(db.runs, run, window)) && OldestFirst(db.runs, Candidates(db.runs, run, window))
    ensures var recent, candidates := Set(Earlier(db.runs, run, window)), Set(Candidates(db.runs, run, window));
      ProjectRuns(db.runs, db.runs[run].project) == {run} + recent + candidates
      && run !in recent && run !in candidates && recent !! candidates
  {
    EarlierInRuns(db.runs, run, window);
    CandidatesInOrder(db.runs, run, window);
    EarlierInProject(db, run, window);
    CandidateSet(db, run, window);
    Complement(ProjectRuns(db.runs, db.runs[run].project), Set(Earlier(db.runs, run, window)), run);
  }

  /** The prose of the last reply in the history, if there is one. */
  predicate ProseOfLast(log: seq<Event>, prose: Option<string>) {
    if prose.None? then forall i | 0 <= i < |log| :: !log[i].data.ResponseValidated?
    else exists i :: 0 <= i < |log| && RepliesLast(log, i, prose.value)
  }

  predicate RepliesLast(log: seq<Event>, i: nat, prose: string) {
    i < |log| && log[i].data.ResponseValidated? && log[i].data.response.prose == prose
    && forall j | i < j < |log| :: !log[j].data.ResponseValidated?
  }

  lemma {:induction false} LastProseIs(log: seq<Event>)
    ensures ProseOfLast(log, LastProse(log))
  {
    if log != [] {
      var init := log[..|log| - 1];
      LastProseIs(init);
      if log[|log| - 1].data.ResponseValidated? {
        assert RepliesLast(log, |log| - 1, log[|log| - 1].data.response.prose);
      } else if LastProse(log).Some? {
        var i :| 0 <= i < |init| && RepliesLast(init, i, LastProse(init).value);
        assert RepliesLast(log, i, LastProse(log).value);
      }
    }
  }

  /** What a finished run's turn tells: its message, and how it ended. */
  predicate TellsTurn(db: Db, r: RunId, t: TurnOutcome)
    requires r in db.runs && Opened(Log(db.events, r))
  {
    var log := Log(db.events, r);
    t.run == r && t.status == db.runs[r].status && t.request == Some(log[1].data.text)
    && t.errorCode == db.runs[r].errorCode
    && (t.status == Failed ==> t.prose.None? && log[|log| - 1].data.RunFailed? && t.message == Some(log[|log| - 1].data.message))
    && (t.status == Completed ==> t.message.None? && ProseOfLast(log, t.prose))
  }

  lemma TellsFinished(db: Db, r: RunId)
    requires r in db.runs && r in db.context && RunOk(db, r) && db.runs[r].status != Running
    ensures OutcomeOf(db, r).Some? && TellsTurn(db, r, OutcomeOf(db, r).value)
  {
    var log := Log(db.events, r);
    assert FirstMessage(log[1..]) == Some(log[1].data.text);
    LastProseIs(log);
  }

  /** `told` tells each of `turns`, in order. */
  predicate TellsEach(db: Db, turns: seq<RunId>, told: seq<TurnOutcome>) {
    |told| == |turns|
    && forall i | 0 <= i < |turns| :: turns[i] in db.runs && Opened(Log(db.events, turns[i])) && TellsTurn(db, turns[i], told[i])
  }

  lemma {:induction false} OutcomesTellAll(db: Db, turns: seq<RunId>)
    requires Domains(db) && RunsOk(db)
    requires forall i | 0 <= i < |turns| :: turns[i] in db.runs && db.runs[turns[i]].status != Running
    ensures TellsEach(db, turns, Outcomes(db, turns))
  {
    if turns != [] {
      var last := turns[|turns| - 1];
      OutcomesTellAll(db, turns[..|turns| - 1]);
      assert RunOk(db, last);
      TellsFinished(db, last);
    }
  }

  /** No recent turn is ever skipped as still running: the IR of a running run tells each of its last
      `window` turns, in order, with its message and how it ended. */
  lemma RecentTurnsTold(db: Db, run: RunId, window: nat)
    requires Inv(db) && IsRunning(db, run)
    ensures TellsEach(db, Earlier(db.runs, run, window), RecentOutcomes(db, run, window))
  {
    var recent := Earlier(db.runs, run, window);
    EarlierInRuns(db.runs, run, window);
    EarlierInProject(db, run, window);
    forall i | 0 <= i < |recent| ensures db.runs[recent[i]].status != Running {
      assert recent[i] in Set(recent);
      OthersFinished(db, run, recent[i]);
    }
    OutcomesTellAll(db, recent);
  }
}
