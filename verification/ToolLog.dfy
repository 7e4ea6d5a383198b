/** A run's tool calls, told twice from its history: as the results IR carries and as the calls the
    inspector shows. */
module ToolLog {
  import opened Common
  import opened Records

  // ---- The protocol of a call ----

  /** How far a call has got. */
  datatype CallState = Asked | Approved | Refused | Done

  function CallEvent(m: map<CallId, CallState>, d: EventData): map<CallId, CallState> {
    if d.ToolRequested? then m[d.call := Asked]
    else if d.ToolDecided? then m[d.call := if d.allowed then Approved else Refused]
    else if d.ToolCompleted? then m[d.call := Done]
    else m
  }

  function CallStates(log: seq<EventData>): map<CallId, CallState> {
    if log == [] then map[] else CallEvent(CallStates(log[..|log| - 1]), log[|log| - 1])
  }

  /** Whether `d` may come next: a new call is asked for, an asked one decided, an approved one
      completed. */
  predicate MayFollow(m: map<CallId, CallState>, d: EventData) {
    (d.ToolRequested? ==> d.call !in m)
    && (d.ToolDecided? ==> d.call in m && m[d.call] == Asked)
    && (d.ToolCompleted? ==> d.call in m && m[d.call] == Approved)
  }

  /** Call ids are distinct; each call is asked for, then decided at most once, then completed only if
      it was allowed. */
  predicate Proper(log: seq<EventData>) {
    log == [] || (Proper(log[..|log| - 1]) && MayFollow(CallStates(log[..|log| - 1]), log[|log| - 1]))
  }

  /** The calls asked for, in order. */
  function Requested(log: seq<EventData>): seq<CallId> {
    if log == [] then []
    else
      var rest := Requested(log[..|log| - 1]);
      if log[|log| - 1].ToolRequested? then rest + [log[|log| - 1].call] else rest
  }

  // ---- Results as IR carries them ----

  const NO_DECISION := "no decision was recorded"
  const NOT_FINISHED := "{\"error\":\"the call did not finish\"}"

  /** The first of `ids` equal to `call`, or their number if none is. */
  function First(ids: seq<CallId>, call: CallId): (i: nat)
    ensures i <= |ids| && (i < |ids| ==> ids[i] == call) && forall k | 0 <= k < i :: ids[k] != call
    decreases |ids|
  {
    if ids == [] || ids[0] == call then 0 else 1 + First(ids[1..], call)
  }

  function ResultCalls(results: seq<ToolResult>): (ids: seq<CallId>)
    ensures |ids| == |results|
  {
    seq(|results|, i requires 0 <= i < |results| => results[i].call)
  }

  /** What one event does to the results; `note` is what stands in for an output left out. */
  function ResultEvent(results: seq<ToolResult>, d: EventData, omitted: set<CallId>, note: string -> string): seq<ToolResult> {
    if d.ToolRequested? then results + [ToolResult(d.call, d.name, d.arguments, CallDenied, None, Some(NO_DECISION))]
    else if d.ToolDecided? then
      var i := First(ResultCalls(results), d.call);
      if i == |results| then results
      else if d.allowed then results[i := results[i].(status := CallFailed, output := Some(NOT_FINISHED), reason := None)]
      else results[i := results[i].(reason := d.why)]
    else if d.ToolCompleted? then
      var i := First(ResultCalls(results), d.call);
      if i == |results| then results
      else results[i := results[i].(status := if d.isError then CallFailed else CallCompleted,
                                    output := Some(if d.call in omitted then note(d.output) else d.output), reason := None)]
    else results
  }

  function Results(log: seq<EventData>, omitted: set<CallId>, note: string -> string): seq<ToolResult> {
    if log == [] then []
    else ResultEvent(Results(log[..|log| - 1], omitted, note), log[|log| - 1], omitted, note)
  }

  method FindCall(ids: seq<CallId>, call: CallId) returns (i: nat)
    ensures i == First(ids, call)
  {
    i := 0;
    while i < |ids| && ids[i] != call
      invariant i <= |ids| && forall k | 0 <= k < i :: ids[k] != call
    {
      i := i + 1;
    }
  }

  /** Reads the history once, editing the results in place. */
  method ToolResults(log: seq<EventData>, omitted: set<CallId>, note: string -> string) returns (results: seq<ToolResult>)
    ensures results == Results(log, omitted, note)
  {
    results := [];
    for k := 0 to |log|
      invariant results == Results(log[..k], omitted, note)
    {
      assert log[..k + 1][..k] == log[..k];
      match log[k] {
        case ToolRequested(call, name, arguments) =>
          results := results + [ToolResult(call, name, arguments, CallDenied, None, Some(NO_DECISION))];
        case ToolDecided(call, allowed, _, why) =>
          var i := FindCall(ResultCalls(results), call);
          if i < |results| {
            results := results[i := results[i].(reason := if allowed then None else why)];
            if allowed {
              results := results[i := results[i].(status := CallFailed, output := Some(NOT_FINISHED))];
            }
          }
        case ToolCompleted(call, output, isError) =>
          var i := FindCall(ResultCalls(results), call);
          if i < |results| {
            results := results[i := results[i].(status := if isError then CallFailed else CallCompleted,
                                                output := Some(if call in omitted then note(output) else output), reason := None)];
          }
        case _ =>
      }
    }
    assert log[..|log|] == log;
  }

  // ---- Calls as the inspector shows them ----

  datatype ViewStatus = Awaiting | InProgress | ViewCompleted | ViewFailed | ViewDenied | Stopped

  datatype CallView = CallView(call: CallId, name: string, arguments: string, status: ViewStatus,
                               decidedBy: Option<Decider>, reason: Option<string>, output: Option<string>)

  function ViewCalls(calls: seq<CallView>): (ids: seq<CallId>)
    ensures |ids| == |calls|
  {
    seq(|calls|, i requires 0 <= i < |calls| => calls[i].call)
  }

  predicate Unsettled(c: CallView) { c.status == Awaiting || c.status == InProgress }

  function Halted(calls: seq<CallView>): seq<CallView> {
    seq(|calls|, i requires 0 <= i < |calls| => if Unsettled(calls[i]) then calls[i].(status := Stopped) else calls[i])
  }

  function ViewEvent(calls: seq<CallView>, d: EventData): seq<CallView> {
    if d.ToolRequested? then calls + [CallView(d.call, d.name, d.arguments, Awaiting, None, None, None)]
    else if d.ToolDecided? then
      var i := First(ViewCalls(calls), d.call);
      if i == |calls| then calls
      else calls[i := calls[i].(status := if d.allowed then InProgress else ViewDenied, decidedBy := Some(d.decider), reason := d.why)]
    else if d.ToolCompleted? then
      var i := First(ViewCalls(calls), d.call);
      if i == |calls| then calls
      else calls[i := calls[i].(status := if d.isError then ViewFailed else ViewCompleted, output := Some(d.output))]
    else if d.RunFailed? || d.RunCompleted? then Halted(calls)
    else calls
  }

  function Views(log: seq<EventData>): seq<CallView> {
    if log == [] then [] else ViewEvent(Views(log[..|log| - 1]), log[|log| - 1])
  }

  method HaltCalls(calls: seq<CallView>) returns (halted: seq<CallView>)
    ensures halted == Halted(calls)
  {
    halted := calls;
    for i := 0 to |calls|
      invariant |halted| == |calls| && forall k | 0 <= k < |calls| :: halted[k] == if k < i then Halted(calls)[k] else calls[k]
    {
      if halted[i].status == Awaiting || halted[i].status == InProgress {
        halted := halted[i := halted[i].(status := Stopped)];
      }
    }
  }

  /** The calls after one more event, and whether the event was one of theirs. */
  method ApplyToolEvent(calls: seq<CallView>, d: EventData) returns (after: seq<CallView>, isTool: bool)
    ensures after == ViewEvent(calls, d)
    ensures isTool <==> d.ToolRequested? || d.ToolDecided? || d.ToolCompleted?
  {
    after, isTool := calls, true;
    match d {
      case ToolRequested(call, name, arguments) =>
        after := after + [CallView(call, name, arguments, Awaiting, None, None, None)];
      case ToolDecided(call, allowed, decider, why) =>
        var i := FindCall(ViewCalls(calls), call);
        if i < |calls| {
          after := after[i := calls[i].(status := if allowed then InProgress else ViewDenied, decidedBy := Some(decider), reason := why)];
        }
      case ToolCompleted(call, output, isError) =>
        var i := FindCall(ViewCalls(calls), call);
        if i < |calls| {
          after := after[i := calls[i].(status := if isError then ViewFailed else ViewCompleted, output := Some(output))];
        }
      case RunFailed(_, _) => after := HaltCalls(calls); isTool := false;
      case RunCompleted => after := HaltCalls(calls); isTool := false;
      case _ => isTool := false;
    }
  }

  method ToolCalls(log: seq<EventData>) returns (calls: seq<CallView>)
    ensures calls == Views(log)
  {
    calls := [];
    for k := 0 to |log|
      invariant calls == Views(log[..k])
    {
      assert log[..k + 1][..k] == log[..k];
      var isTool;
      calls, isTool := ApplyToolEvent(calls, log[k]);
    }
    assert log[..|log|] == log;
  }

  // ---- The two accounts agree ----

  predicate Distinct(ids: seq<CallId>) { forall i, j | 0 <= i < j < |ids| :: ids[i] != ids[j] }

  /** One call's two accounts, given how far it got. */
  predicate SameCall(r: ToolResult, c: CallView, state: CallState, omitted: set<CallId>, note: string -> string) {
    r.call == c.call && r.name == c.name && r.arguments == c.arguments
    && match state
       case Asked =>
         r.status == CallDenied && r.output.None? && r.reason == Some(NO_DECISION)
         && (c.status == Awaiting || c.status == Stopped) && c.output.None?
       case Approved =>
         r.status == CallFailed && r.output == Some(NOT_FINISHED) && r.reason.None?
         && (c.status == InProgress || c.status == Stopped) && c.output.None?
       case Refused =>
         r.status == CallDenied && r.output.None? && c.status == ViewDenied && c.output.None? && r.reason == c.reason
       case Done =>
         r.reason.None? && c.output.Some?
         && r.output == Some(if r.call in omitted then note(c.output.value) else c.output.value)
         && ((r.status == CallCompleted && c.status == ViewCompleted) || (r.status == CallFailed && c.status == ViewFailed))
  }

  predicate SameCalls(results: seq<ToolResult>, calls: seq<CallView>, states: map<CallId, CallState>, omitted: set<CallId>,
                      note: string -> string)
  {
    |results| == |calls| && Distinct(ResultCalls(results))
    && (forall i | 0 <= i < |results| :: results[i].call in states && SameCall(results[i], calls[i], states[results[i].call], omitted, note))
    && forall call | call in states :: call in ResultCalls(results)
  }

  lemma AgreeStep(results: seq<ToolResult>, calls: seq<CallView>, states: map<CallId, CallState>, omitted: set<CallId>,
                  note: string -> string, d: EventData)
    requires SameCalls(results, calls, states, omitted, note) && MayFollow(states, d)
    ensures SameCalls(ResultEvent(results, d, omitted, note), ViewEvent(calls, d), CallEvent(states, d), omitted, note)
  {
    assert ViewCalls(calls) == ResultCalls(results);
    if d.ToolRequested? {
      AgreeAsked(results, calls, states, omitted, note, d);
    } else if d.ToolDecided? || d.ToolCompleted? {
      AgreeChanged(results, calls, states, omitted, note, d);
    }
  }

  lemma AgreeAsked(results: seq<ToolResult>, calls: seq<CallView>, states: map<CallId, CallState>, omitted: set<CallId>,
                   note: string -> string, d: EventData)
    requires SameCalls(results, calls, states, omitted, note) && MayFollow(states, d) && d.ToolRequested?
    ensures SameCalls(ResultEvent(results, d, omitted, note), ViewEvent(calls, d), CallEvent(states, d), omitted, note)
  {
    var results', states' := ResultEvent(results, d, omitted, note), CallEvent(states, d);
    assert ResultCalls(results') == ResultCalls(results) + [d.call];
    forall call | call in states' ensures call in ResultCalls(results') {
      if call != d.call {
        assert call in ResultCalls(results);
      }
    }
  }

  lemma AgreeChanged(results: seq<ToolResult>, calls: seq<CallView>, states: map<CallId, CallState>, omitted: set<CallId>,
                     note: string -> string, d: EventData)
    requires SameCalls(results, calls, states, omitted, note) && MayFollow(states, d) && (d.ToolDecided? || d.ToolCompleted?)
    ensures SameCalls(ResultEvent(results, d, omitted, note), ViewEvent(calls, d), CallEvent(states, d), omitted, note)
  {
    assert ViewCalls(calls) == ResultCalls(results);
    var results', states' := ResultEvent(results, d, omitted, note), CallEvent(states, d);
    assert d.call in ResultCalls(results);
    var i := First(ResultCalls(results), d.call);
    assert i < |results|;
    assert SameCall(results[i], calls[i], states[d.call], omitted, note);
    assert ResultCalls(results') == ResultCalls(results);
    forall k | 0 <= k < |results'|
      ensures results'[k].call in states' && SameCall(results'[k], ViewEvent(calls, d)[k], states'[results'[k].call], omitted, note)
    {
      if k != i {
        assert ResultCalls(results)[k] != d.call;
      }
    }
  }

  lemma {:induction false} AccountsAgree(log: seq<EventData>, omitted: set<CallId>, note: string -> string)
    requires Proper(log)
    ensures SameCalls(Results(log, omitted, note), Views(log), CallStates(log), omitted, note)
  {
    if log != [] {
      var init := log[..|log| - 1];
      AccountsAgree(init, omitted, note);
      AgreeStep(Results(init, omitted, note), Views(init), CallStates(init), omitted, note, log[|log| - 1]);
    }
  }

  /** In any history that keeps the protocol, IR's results list every call asked for exactly once, in
      order, and so does the inspector. */
  lemma {:induction false} EveryCallOnce(log: seq<EventData>, omitted: set<CallId>, note: string -> string)
    requires Proper(log)
    ensures ResultCalls(Results(log, omitted, note)) == Requested(log) == ViewCalls(Views(log))
    ensures Distinct(Requested(log))
    ensures forall call :: call in Requested(log) <==> call in CallStates(log)
  {
    AccountsAgree(log, omitted, note);
    assert ResultCalls(Results(log, omitted, note)) == ViewCalls(Views(log));
    if log != [] {
      var init, d := log[..|log| - 1], log[|log| - 1];
      EveryCallOnce(init, omitted, note);
      var results := Results(init, omitted, note);
      assert ResultCalls(Results(log, omitted, note)) == if d.ToolRequested? then ResultCalls(results) + [d.call] else ResultCalls(results);
    }
    forall call | call in Requested(log) ensures call in CallStates(log) {
      var i :| 0 <= i < |Requested(log)| && Requested(log)[i] == call;
      assert Results(log, omitted, note)[i].call == call;
    }
  }

  /** On a settled call, the two accounts give the same outcome: the same refusal for the same reason,
      or the same result with the same output unless it was left out. */
  lemma SettledCallsAgree(log: seq<EventData>, omitted: set<CallId>, note: string -> string, i: nat)
    requires Proper(log) && i < |Requested(log)|
    ensures |Results(log, omitted, note)| == |Views(log)| == |Requested(log)|
    ensures var r, c := Results(log, omitted, note)[i], Views(log)[i];
      r.call == c.call == Requested(log)[i] && r.call in CallStates(log) && r.name == c.name && r.arguments == c.arguments
      && (CallStates(log)[r.call] == Refused ==> r.status == CallDenied && c.status == ViewDenied && r.reason == c.reason)
      && (CallStates(log)[r.call] == Done ==>
            c.output.Some? && r.output == Some(if r.call in omitted then note(c.output.value) else c.output.value)
            && (r.status == CallCompleted <==> c.status == ViewCompleted) && (r.status == CallFailed <==> c.status == ViewFailed))
  {
    AccountsAgree(log, omitted, note);
    EveryCallOnce(log, omitted, note);
  }

  // ---- What they tell is what happened ----

  predicate Refusal(log: seq<EventData>, call: CallId, why: Option<string>) {
    exists d :: d in log && d.ToolDecided? && d.call == call && !d.allowed && d.why == why
  }

  /** The output a result shows for what a call gave. */
  function ShownOutput(call: CallId, output: string, omitted: set<CallId>, note: string -> string): Option<string> {
    Some(if call in omitted then note(output) else output)
  }

  /** A result has the name and the arguments the call was asked for with; the reason it was refused for, or the output
      it completed with. */
  predicate ResultTold(log: seq<EventData>, r: ToolResult, state: CallState, omitted: set<CallId>, note: string -> string) {
    ToolRequested(r.call, r.name, r.arguments) in log
    && match state
       case Asked => r.status == CallDenied && r.output.None? && r.reason == Some(NO_DECISION)
       case Approved => r.status == CallFailed && r.output == Some(NOT_FINISHED) && r.reason.None?
       case Refused => r.status == CallDenied && r.output.None? && Refusal(log, r.call, r.reason)
       case Done => r.reason.None? && exists d :: d in log && CompletedAs(d, r, omitted, note)
  }

  predicate CompletedAs(d: EventData, r: ToolResult, omitted: set<CallId>, note: string -> string) {
    d.ToolCompleted? && d.call == r.call && r.status == (if d.isError then CallFailed else CallCompleted)
    && r.output == ShownOutput(r.call, d.output, omitted, note)
  }

  /** An inspector's call has them too, and who decided it. */
  predicate ViewTold(log: seq<EventData>, c: CallView, state: CallState) {
    ToolRequested(c.call, c.name, c.arguments) in log
    && match state
       case Asked => c.decidedBy.None? && c.reason.None?
       case Approved => c.decidedBy.Some? && ToolDecided(c.call, true, c.decidedBy.value, c.reason) in log
       case Refused => c.decidedBy.Some? && ToolDecided(c.call, false, c.decidedBy.value, c.reason) in log
       case Done =>
         c.output.Some? && ToolCompleted(c.call, c.output.value, c.status == ViewFailed) in log
         && c.decidedBy.Some? && ToolDecided(c.call, true, c.decidedBy.value, c.reason) in log
  }

  predicate ResultsTold(log: seq<EventData>, results: seq<ToolResult>, states: map<CallId, CallState>, omitted: set<CallId>, note: string -> string) {
    forall i | 0 <= i < |results| :: results[i].call in states && ResultTold(log, results[i], states[results[i].call], omitted, note)
  }

  predicate ViewsTold(log: seq<EventData>, calls: seq<CallView>, states: map<CallId, CallState>) {
    forall i | 0 <= i < |calls| :: calls[i].call in states && ViewTold(log, calls[i], states[calls[i].call])
  }

  lemma ResultStillTold(log: seq<EventData>, d: EventData, r: ToolResult, state: CallState, omitted: set<CallId>, note: string -> string)
    requires ResultTold(log, r, state, omitted, note)
    ensures ResultTold(log + [d], r, state, omitted, note)
  {
    assert forall e | e in log :: e in log + [d];
  }

  lemma ViewStillTold(log: seq<EventData>, d: EventData, c: CallView, state: CallState)
    requires ViewTold(log, c, state)
    ensures ViewTold(log + [d], c, state)
  {
    assert forall e | e in log :: e in log + [d];
  }

  lemma ResultToldNext(log: seq<EventData>, d: EventData, results: seq<ToolResult>, states: map<CallId, CallState>,
                       omitted: set<CallId>, note: string -> string)
    requires ResultsTold(log, results, states, omitted, note) && Distinct(ResultCalls(results)) && MayFollow(states, d)
    ensures ResultsTold(log + [d], ResultEvent(results, d, omitted, note), CallEvent(states, d), omitted, note)
  {
    var results', states' := ResultEvent(results, d, omitted, note), CallEvent(states, d);
    assert d in log + [d];
    forall k | 0 <= k < |results'|
      ensures results'[k].call in states' && ResultTold(log + [d], results'[k], states'[results'[k].call], omitted, note)
    {
      if k < |results| {
        assert ResultCalls(results)[k] == results[k].call;
        ResultStillTold(log, d, results[k], states[results[k].call], omitted, note);
      }
    }
  }

  lemma ViewToldNext(log: seq<EventData>, d: EventData, calls: seq<CallView>, states: map<CallId, CallState>)
    requires ViewsTold(log, calls, states) && Distinct(ViewCalls(calls)) && MayFollow(states, d)
    requires forall i | 0 <= i < |calls| :: calls[i].call in states && (states[calls[i].call] == Done ==> !Unsettled(calls[i]))
    ensures ViewsTold(log + [d], ViewEvent(calls, d), CallEvent(states, d))
  {
    var calls', states' := ViewEvent(calls, d), CallEvent(states, d);
    assert d in log + [d];
    forall k | 0 <= k < |calls'| ensures calls'[k].call in states' && ViewTold(log + [d], calls'[k], states'[calls'[k].call]) {
      if k < |calls| {
        assert ViewCalls(calls)[k] == calls[k].call;
        ViewStillTold(log, d, calls[k], states[calls[k].call]);
      }
    }
  }

  lemma SettledStay(results: seq<ToolResult>, calls: seq<CallView>, states: map<CallId, CallState>, omitted: set<CallId>, note: string -> string)
    requires SameCalls(results, calls, states, omitted, note)
    ensures ViewCalls(calls) == ResultCalls(results)
    ensures forall i | 0 <= i < |calls| :: calls[i].call in states && (states[calls[i].call] == Done ==> !Unsettled(calls[i]))
  {
  }

  /** In any history that keeps the protocol, both accounts tell of each call what the history holds: what was asked
      for, who refused or allowed it and why, and what it gave. */
  lemma {:induction false} TellsWhatHappened(log: seq<EventData>, omitted: set<CallId>, note: string -> string)
    requires Proper(log)
    ensures ResultsTold(log, Results(log, omitted, note), CallStates(log), omitted, note)
    ensures ViewsTold(log, Views(log), CallStates(log))
  {
    if log != [] {
      var init, d := log[..|log| - 1], log[|log| - 1];
      assert log == init + [d];
      TellsWhatHappened(init, omitted, note);
      AccountsAgree(init, omitted, note);
      SettledStay(Results(init, omitted, note), Views(init), CallStates(init), omitted, note);
      ResultToldNext(init, d, Results(init, omitted, note), CallStates(init), omitted, note);
      ViewToldNext(init, d, Views(init), CallStates(init));
    }
  }

  /** No two requests have one id. */
  lemma {:induction false} AskedOnce(log: seq<EventData>, i: nat, j: nat)
    requires Proper(log) && i < |log| && j < |log| && log[i].ToolRequested? && log[j].ToolRequested? && log[i].call == log[j].call
    ensures i == j
    decreases |log|
  {
    var init := log[..|log| - 1];
    if i < |init| && j < |init| {
      AskedOnce(init, i, j);
    } else if i != j {
      AskedIsKnown(init, if i < j then i else j);
    }
  }

  lemma {:induction false} AskedIsKnown(log: seq<EventData>, i: nat)
    requires i < |log| && log[i].ToolRequested?
    ensures log[i].call in CallStates(log)
    decreases |log|
  {
    if i < |log| - 1 {
      AskedIsKnown(log[..|log| - 1], i);
    }
  }
}
