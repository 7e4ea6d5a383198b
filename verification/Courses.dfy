/** What the record of an executed run shows: how it ends, that the model is shown the results of the calls it just made, whole,
    and the review it is to address. */
module Courses {
  import opened Common
  import opened Records
  import opened ToolLog
  import opened Execution
  import opened Announced
  import opened Journals
  import opened Exchanges
  import Compilation
  import Database
  import Fitting

  // ---- Where replies stand ----

  predicate NoReplies(events: seq<EventData>) { forall i | 0 <= i < |events| :: !events[i].ResponseValidated? }

  lemma NoRepliesJoin(a: seq<EventData>, b: seq<EventData>)
    requires NoReplies(a) && NoReplies(b)
    ensures NoReplies(a + b)
  {
  }

  lemma {:induction false} RoundsAppend(a: seq<EventData>, b: seq<EventData>)
    ensures Rounds(a + b) == Rounds(a) + Rounds(b)
    decreases |b|
  {
    if b == [] {
      assert a + b == a;
    } else {
      assert (a + b)[..|a + b| - 1] == a + b[..|b| - 1];
      RoundsAppend(a, b[..|b| - 1]);
    }
  }

  lemma {:induction false} NoRounds(events: seq<EventData>)
    requires NoReplies(events)
    ensures Rounds(events) == 0
  {
    if events != [] {
      NoRounds(events[..|events| - 1]);
    }
  }

  lemma CallHasNoReplies(w: World, call: CallId, name: string, arguments: string, overLimit: bool, available: bool)
    ensures NoReplies(CallEvents(w, call, name, arguments, overLimit, available))
  {
  }

  lemma {:induction false} RoundHasNoReplies(w: World, first: CallId, calls: seq<ToolCall>, overLimit: bool, available: set<string>)
    ensures NoReplies(RoundEvents(w, first, calls, overLimit, available))
    decreases |calls|
  {
    if calls != [] {
      var k := |calls| - 1;
      RoundHasNoReplies(w, first, calls[..k], overLimit, available);
      CallHasNoReplies(w, first + k, calls[k].name, calls[k].arguments, overLimit, calls[k].name in available);
    }
  }

  lemma FoundHaveNoReplies(more: seq<EventData>)
    requires Found(more)
    ensures NoReplies(more)
  {
  }

  lemma ReviewedAdds(run: RunId, opening: seq<EventData>, before: seq<EventData>, after: seq<EventData>, round: nat, seen: Reviewed,
                     error: Option<string>, handedBack: bool) returns (more: seq<EventData>)
    requires ReviewedAs(run, opening, before, after, round, seen, error, handedBack)
    ensures after == before + more && NoReplies(more)
  {
    var found := ReviewLeaves(run, opening, before, after, round, seen, error, handedBack);
    FoundHaveNoReplies(found);
    Regroup(before, [ReviewCompleted(round, seen.findings, error)], found);
    more := [ReviewCompleted(round, seen.findings, error)] + found;
  }

  lemma SettledAdds(k: Case, st: Standing, x: Exchange, after: seq<EventData>) returns (more: seq<EventData>)
    requires Settled(k, st, x, after)
    ensures after == x.applied + more && NoReplies(more)
  {
    if x.response.toolCalls != [] {
      more := RoundEvents(k.world, st.nextCall, x.response.toolCalls, PastLimit(k.terms, st), Runnable(k.has.runner, x.ir));
      RoundHasNoReplies(k.world, st.nextCall, x.response.toolCalls, PastLimit(k.terms, st), Runnable(k.has.runner, x.ir));
    } else if x.seen.None? {
      more := [];
    } else {
      more := ReviewedAdds(k.run, k.opening, x.applied, after, st.reviews + 1, x.seen.value, k.world.reviewer(Turn(st)).error,
                           Continues(k.terms, st, x));
    }
  }

  /** Before its reply an exchange records the IR and the inference on it. */
  function Lead(x: Exchange): seq<EventData> { [IrCompiled(x.ir), InferenceStarted] + Deltas(x.told) + [InferenceCompleted(x.raw)] }

  lemma LeadHasNoReplies(x: Exchange)
    ensures NoReplies(Lead(x))
  {
  }

  lemma CreationsHaveNoReplies(more: seq<EventData>)
    requires Creations(more)
    ensures NoReplies(more)
  {
  }

  lemma LeadIs(before: seq<EventData>, x: Exchange)
    ensures before + [IrCompiled(x.ir)] + [InferenceStarted] + Deltas(x.told) + [InferenceCompleted(x.raw)] == before + Lead(x)
  {
  }

  lemma ReplyAdds(x: Exchange) returns (more: seq<EventData>)
    requires |x.ids| == |x.response.emissions| && Database.EndpointsResolve(Database.RefsOf(x.response.emissions), x.response.emissions)
    ensures ReplyEvents(x.response, x.ids) == [ResponseValidated(x.response)] + more && NoReplies(more)
  {
    ReplyCreates(x.response, x.ids, 0);
    more := ReplyEvents(x.response, x.ids)[1..];
    CreationsHaveNoReplies(more);
  }

  lemma RepliedAdds(k: Case, before: seq<EventData>, x: Exchange) returns (more: seq<EventData>)
    requires Replied(k, before, x)
    ensures x.applied == before + Lead(x) + [ResponseValidated(x.response)] + more && NoReplies(more)
  {
    RepliedIs(k, before, x);
    more := ReplyAdds(x);
    LeadIs(before, x);
    Regroup(before + Lead(x), [ResponseValidated(x.response)], more);
  }

  /** An exchange records its IR, the inference on it, its reply, and nothing that is a reply after that. */
  lemma ExchangeAdds(k: Case, before: seq<EventData>, after: seq<EventData>, st: Standing, x: Exchange) returns (more: seq<EventData>)
    requires Exchanged(k, before, after, st, x)
    ensures after == before + Lead(x) + [ResponseValidated(x.response)] + more && NoReplies(more)
  {
    ExchangedIs(k, before, after, st, x);
    var created := RepliedAdds(k, before, x);
    var rest := SettledAdds(k, st, x, after);
    NoRepliesJoin(created, rest);
    Regroup(before + Lead(x) + [ResponseValidated(x.response)], created, rest);
    more := created + rest;
  }

  // ---- How a run ends ----

  /** Where the reply of an exchange stands in the record. */
  function ReplyPlace(before: seq<EventData>, x: Exchange): nat { |before| + |x.told| + 3 }

  /** The exchange's reply is the record's only one from there on. */
  predicate RepliesAt(log: seq<EventData>, before: seq<EventData>, x: Exchange) {
    var p := ReplyPlace(before, x);
    p < |log| && log[..|before|] == before && log[|before|] == IrCompiled(x.ir) && log[|before| + 1] == InferenceStarted
    && log[p] == ResponseValidated(x.response) && forall i | |before| <= i < |log| && i != p :: !log[i].ResponseValidated?
  }

  lemma ExchangeReplies(k: Case, before: seq<EventData>, after: seq<EventData>, st: Standing, x: Exchange)
    requires Exchanged(k, before, after, st, x)
    ensures RepliesAt(after, before, x) && Rounds(after) == Rounds(before) + if x.response.toolCalls != [] then 1 else 0
  {
    var more := ExchangeAdds(k, before, after, st, x);
    LeadHasNoReplies(x);
    PiecesReply(before, x, more);
    NoRounds(Lead(x));
    NoRounds(more);
    RoundsAppend(before, Lead(x));
    RoundsAppend(before + Lead(x), [ResponseValidated(x.response)]);
    RoundsAppend(before + Lead(x) + [ResponseValidated(x.response)], more);
    OneReply(x.response);
  }

  lemma OneReply(response: Response)
    ensures Rounds([ResponseValidated(response)]) == if response.toolCalls != [] then 1 else 0
  {
    assert [ResponseValidated(response)][..0] == [];
    assert Rounds([]) == 0;
  }

  lemma PiecesReply(before: seq<EventData>, x: Exchange, more: seq<EventData>)
    requires NoReplies(Lead(x)) && NoReplies(more)
    ensures RepliesAt(before + Lead(x) + [ResponseValidated(x.response)] + more, before, x)
  {
    var log, p := before + Lead(x) + [ResponseValidated(x.response)] + more, ReplyPlace(before, x);
    assert |Lead(x)| == |x.told| + 3;
    assert log[|before|] == Lead(x)[0] && log[|before| + 1] == Lead(x)[1];
    forall i | |before| <= i < |log| && i != p ensures !log[i].ResponseValidated? {
      assert if i < p then log[i] == Lead(x)[i - |before|] else log[i] == more[i - p - 1];
    }
  }

  lemma LeadsFrom(k: Case, logs: seq<seq<EventData>>, xs: seq<Exchange>, i: nat)
    requires Conversed(k, logs, xs) && i < |xs|
    ensures Exchanged(k, logs[i], logs[i + 1], StandingAfter(k.terms, xs[..i]), xs[i])
  {
    assert Leads(k, logs, xs, i);
  }

  /** What one exchange of a run adds to its record. */
  lemma AddsReply(k: Case, logs: seq<seq<EventData>>, xs: seq<Exchange>, i: nat)
    requires Conversed(k, logs, xs) && i < |xs|
    ensures RepliesAt(logs[i + 1], logs[i], xs[i]) && Rounds(logs[i + 1]) == Rounds(logs[i]) + RoundsOf(xs[i])
  {
    LeadsFrom(k, logs, xs, i);
    ExchangeReplies(k, logs[i], logs[i + 1], StandingAfter(k.terms, xs[..i]), xs[i]);
  }

  function RoundsOf(x: Exchange): nat { if x.response.toolCalls != [] then 1 else 0 }

  predicate IsPrefix(a: seq<EventData>, b: seq<EventData>) { |a| <= |b| && b[..|a|] == a }

  lemma {:induction false} RecordGrows(k: Case, logs: seq<seq<EventData>>, xs: seq<Exchange>, i: nat, j: nat)
    requires Conversed(k, logs, xs) && i <= j <= |xs|
    ensures IsPrefix(logs[i], logs[j])
    decreases j
  {
    if i < j {
      RecordGrows(k, logs, xs, i, j - 1);
      AddsReply(k, logs, xs, j - 1);
    }
  }

  lemma RoundsAfter(terms: Terms, xs: seq<Exchange>, i: nat)
    requires i < |xs|
    ensures StandingAfter(terms, xs[..i + 1]).rounds == StandingAfter(terms, xs[..i]).rounds + RoundsOf(xs[i])
  {
    assert xs[..i + 1][..i] == xs[..i];
  }

  lemma AddsRounds(k: Case, logs: seq<seq<EventData>>, xs: seq<Exchange>, i: nat)
    requires Conversed(k, logs, xs) && i < |xs|
    ensures Rounds(logs[i + 1]) == Rounds(logs[i]) + RoundsOf(xs[i])
  {
    AddsReply(k, logs, xs, i);
  }

  /** Every round of the exchanges is a round of the record. */
  lemma {:induction false} RoundsCounted(k: Case, logs: seq<seq<EventData>>, xs: seq<Exchange>, i: nat)
    requires Conversed(k, logs, xs) && i <= |xs|
    ensures Rounds(logs[i]) == Rounds(logs[0]) + StandingAfter(k.terms, xs[..i]).rounds
    decreases i
  {
    if i > 0 {
      RoundsCounted(k, logs, xs, i - 1);
      AddsRounds(k, logs, xs, i - 1);
      RoundsAfter(k.terms, xs, i - 1);
    }
  }

  /** After the reply at `p` another IR is compiled, and the provider asked again. */
  predicate AskedAgain(log: seq<EventData>, p: nat) { exists q :: p < q < |log| && AsksAt(log, q) }

  predicate AsksAt(log: seq<EventData>, q: nat) { q + 1 < |log| && log[q].IrCompiled? && log[q + 1].InferenceStarted? }

  /** Every reply of the record but the last exchange's is followed by another inference. */
  lemma {:induction false} EarlierAskedAgain(k: Case, logs: seq<seq<EventData>>, xs: seq<Exchange>, n: nat, p: nat)
    requires Conversed(k, logs, xs) && 0 < n <= |xs| && |logs[0]| <= p < |logs[n]|
    requires logs[n][p].ResponseValidated? && p != ReplyPlace(logs[n - 1], xs[n - 1])
    ensures AskedAgain(logs[n], p)
    decreases n
  {
    AddsReply(k, logs, xs, n - 1);
    RecordGrows(k, logs, xs, 0, n - 1);
    var q := |logs[n - 1]|;
    assert p < q && AsksAt(logs[n], q);
  }

  /** A run is completed only after a reply that nothing follows: it asked for tools past the last round allowed, or it asked for none and no
      review of it must be addressed. Every earlier reply is followed by another IR and another inference. */
  lemma EndsAnswered(k: Case, logs: seq<seq<EventData>>, xs: seq<Exchange>)
    requires Concluded(k, logs, xs) && Unstarted(logs[0])
    ensures var n := |xs| - 1;
      var log, x, last := logs[n + 1], xs[n], ReplyPlace(logs[n], xs[n]);
      RepliesAt(log, logs[n], x)
      && (forall p | |logs[0]| <= p < |log| && log[p].ResponseValidated? && p != last :: p < last && AskedAgain(log, p))
      && (if x.response.toolCalls != [] then Rounds(log) == k.terms.toolRounds + 1
          else Rounds(log) <= k.terms.toolRounds
               && (x.seen.None? || !MustAddress(x.seen.value, StandingAfter(k.terms, xs[..n]).fingerprint,
                                                StandingAfter(k.terms, xs[..n]).reviews + 1, k.terms)))
  {
    var n := |xs| - 1;
    AddsReply(k, logs, xs, n);
    var log := logs[n + 1];
    forall p | |logs[0]| <= p < |log| && log[p].ResponseValidated? && p != ReplyPlace(logs[n], xs[n])
      ensures AskedAgain(log, p) && p < ReplyPlace(logs[n], xs[n])
    {
      EarlierAskedAgain(k, logs, xs, n + 1, p);
    }
    RoundsCounted(k, logs, xs, n);
    RoundsWithin(k.terms, xs[..n]);
  }

  lemma {:induction false} RoundsWithin(terms: Terms, xs: seq<Exchange>)
    requires GoesOn(terms, xs)
    ensures StandingAfter(terms, xs).rounds <= terms.toolRounds
  {
    if xs != [] {
      var n := |xs| - 1;
      GoesOnFewer(terms, xs);
      RoundsWithin(terms, xs[..n]);
      assert ContinuesAt(terms, xs, n);
    }
  }

  lemma GoesOnFewer(terms: Terms, xs: seq<Exchange>)
    requires GoesOn(terms, xs) && xs != []
    ensures GoesOn(terms, xs[..|xs| - 1])
  {
    var init := xs[..|xs| - 1];
    forall i | 0 <= i < |init| ensures ContinuesAt(terms, init, i) {
      assert init[..i] == xs[..i] && ContinuesAt(terms, xs, i);
    }
  }

  // ---- What the model is shown ----

  /** The IR of an exchange carries the review to address and turns that were recalled, and its results are those of the
      history so far, but for outputs left out, none of them of the latest round. */
  lemma ShownIn(k: Case, before: seq<EventData>, after: seq<EventData>, st: Standing, x: Exchange) returns (omitted: set<CallId>)
    requires Exchanged(k, before, after, st, x)
    ensures x.ir.task == k.task && x.ir.review == st.review && x.ir.tools == Exposed(k.terms.tools, k.classification.tools)
    ensures x.ir.toolResults == Results(k.opening + before, omitted, k.note) && omitted !! st.latestRound
    ensures forall t | t in x.ir.recalled :: exists i :: 0 <= i < |k.recalled| && k.recalled[i].turn == t
  {
    ExchangedIs(k, before, after, st, x);
    RepliedIs(k, before, x);
    assert CompiledFrom(k, before, x.step, x.ir);
    omitted := FittedShows(k, before, x.step, x.ir);
  }

  lemma FittedShows(k: Case, before: seq<EventData>, step: Fitting.StepInput, ir: Ir) returns (omitted: set<CallId>)
    requires CompiledFrom(k, before, step, ir)
    ensures ir.task == k.task && ir.review == step.review && ir.tools == Exposed(k.terms.tools, k.classification.tools)
    ensures ir.toolResults == Results(k.opening + before, omitted, k.note)
    ensures forall c | c in step.latestRound && c in omitted :: c in step.omitted
    ensures forall t | t in ir.recalled :: exists i :: 0 <= i < |step.recalled| && step.recalled[i].turn == t
  {
    var now, ps: seq<Fitting.Progress> :| History(now, k.run) == k.opening + before && Fitting.Fits(SettingOf(k, now, step), ps, ir);
    Fitting.FitCarries(SettingOf(k, now, step), ps, ir);
    omitted := ps[|ps| - 1].fit.omitted;
    forall t | t in ir.recalled ensures exists i :: 0 <= i < |step.recalled| && step.recalled[i].turn == t {
      Fitting.KeptTurnsAre(step.recalled, ps[|ps| - 1].fit.kept, t);
    }
  }

  /** The model is shown the review it is to address in the next IR: its number, how many there may be, and all it found. */
  lemma SeesItsReview(k: Case, logs: seq<seq<EventData>>, xs: seq<Exchange>, i: nat)
    requires Conversed(k, logs, xs) && i + 1 < |xs| && ContinuesAt(k.terms, xs, i) && xs[i].response.toolCalls == []
    ensures xs[i].seen.Some?
    ensures xs[i + 1].ir.review == Some(Review(StandingAfter(k.terms, xs[..i]).reviews + 1, k.terms.reviews, xs[i].seen.value.findings))
  {
    LeadsFrom(k, logs, xs, i + 1);
    var _ := ShownIn(k, logs[i + 1], logs[i + 2], StandingAfter(k.terms, xs[..i + 1]), xs[i + 1]);
    assert xs[..i + 1][..i] == xs[..i];
  }

  lemma {:induction false} CallIdsAre(first: CallId, n: nat)
    ensures forall c :: c in CallIds(first, n) <==> first <= c < first + n
  {
    if n > 0 {
      CallIdsAre(first, n - 1);
    }
  }

  lemma StatesStep(log: seq<EventData>, d: EventData)
    ensures CallStates(log + [d]) == CallEvent(CallStates(log), d)
  {
    assert (log + [d])[..|log|] == log;
  }

  /** A handled call has been asked for, and then refused or carried out. */
  lemma HandledState(w: World, before: seq<EventData>, call: CallId, name: string, arguments: string, overLimit: bool, available: bool)
    ensures var after := before + CallEvents(w, call, name, arguments, overLimit, available);
      ToolRequested(call, name, arguments) in after
      && CallStates(after) == CallStates(before)[call := if Ruling(w, call, overLimit, available).Allow? then Done else Refused]
  {
    var asked, decision := before + [ToolRequested(call, name, arguments)], Ruling(w, call, overLimit, available);
    var after := before + CallEvents(w, call, name, arguments, overLimit, available);
    assert after[|before|] == ToolRequested(call, name, arguments) && after[|before|] in after;
    StatesStep(before, ToolRequested(call, name, arguments));
    StatesStep(asked, Decided(call, decision));
    if decision.Allow? {
      var done := ToolCompleted(call, w.tool(call).output, w.tool(call).isError);
      StatesStep(asked + [Decided(call, decision)], done);
      assert after == asked + [Decided(call, decision)] + [done];
    } else {
      assert after == asked + [Decided(call, decision)];
    }
  }

  predicate IsAsked(log: seq<EventData>, call: CallId, name: string, arguments: string) { ToolRequested(call, name, arguments) in log }

  predicate AskedAndSettled(log: seq<EventData>, call: CallId, name: string, arguments: string) {
    IsAsked(log, call, name, arguments) && call in CallStates(log) && (CallStates(log)[call] == Refused || CallStates(log)[call] == Done)
  }

  lemma StaysSettled(before: seq<EventData>, after: seq<EventData>, call: CallId, name: string, arguments: string, other: CallId, state: CallState)
    requires AskedAndSettled(before, call, name, arguments) && IsPrefix(before, after) && other != call
    requires CallStates(after) == CallStates(before)[other := state]
    ensures AskedAndSettled(after, call, name, arguments)
  {
    var i :| 0 <= i < |before| && before[i] == ToolRequested(call, name, arguments);
    assert after[i] == before[i];
  }

  lemma CallSettles(w: World, before: seq<EventData>, call: CallId, name: string, arguments: string, overLimit: bool, available: bool)
    ensures AskedAndSettled(before + CallEvents(w, call, name, arguments, overLimit, available), call, name, arguments)
  {
    HandledState(w, before, call, name, arguments, overLimit, available);
  }

  lemma OthersSettled(w: World, before: seq<EventData>, call: CallId, name: string, arguments: string, overLimit: bool, available: bool,
                      other: CallId, otherName: string, otherArguments: string)
    requires AskedAndSettled(before, other, otherName, otherArguments) && other != call
    ensures AskedAndSettled(before + CallEvents(w, call, name, arguments, overLimit, available), other, otherName, otherArguments)
  {
    var after := before + CallEvents(w, call, name, arguments, overLimit, available);
    HandledState(w, before, call, name, arguments, overLimit, available);
    StaysSettled(before, after, other, otherName, otherArguments, call, if Ruling(w, call, overLimit, available).Allow? then Done else Refused);
  }

  lemma RoundIs(w: World, before: seq<EventData>, first: CallId, calls: seq<ToolCall>, overLimit: bool, available: set<string>)
    requires calls != []
    ensures var k := |calls| - 1;
      before + RoundEvents(w, first, calls, overLimit, available)
        == before + RoundEvents(w, first, calls[..k], overLimit, available)
           + CallEvents(w, first + k, calls[k].name, calls[k].arguments, overLimit, calls[k].name in available)
  {
  }

  lemma {:induction false} RoundSettles(w: World, before: seq<EventData>, first: CallId, calls: seq<ToolCall>, overLimit: bool,
                                        available: set<string>, j: nat)
    requires j < |calls|
    ensures AskedAndSettled(before + RoundEvents(w, first, calls, overLimit, available), first + j, calls[j].name, calls[j].arguments)
    decreases |calls|
  {
    var k := |calls| - 1;
    RoundIs(w, before, first, calls, overLimit, available);
    if j < k {
      RoundSettles(w, before, first, calls[..k], overLimit, available, j);
      OthersSettled(w, before + RoundEvents(w, first, calls[..k], overLimit, available), first + k, calls[k].name, calls[k].arguments, overLimit,
                    calls[k].name in available, first + j, calls[j].name, calls[j].arguments);
    } else {
      CallSettles(w, before + RoundEvents(w, first, calls[..k], overLimit, available), first + k, calls[k].name, calls[k].arguments, overLimit,
                  calls[k].name in available);
    }
  }

  /** The outcome of a call as the history has it: refused, and why, or the output it gave. */
  predicate Outcome(log: seq<EventData>, r: ToolResult) {
    (r.status == CallDenied && r.output.None? && Refusal(log, r.call, r.reason)) || exists d :: d in log && Gave(d, r)
  }

  predicate Gave(d: EventData, r: ToolResult) {
    d.ToolCompleted? && d.call == r.call && r.status == (if d.isError then CallFailed else CallCompleted) && r.output == Some(d.output)
  }

  predicate ShowsCall(results: seq<ToolResult>, log: seq<EventData>, call: CallId, name: string, arguments: string) {
    exists r :: r in results && r.call == call && r.name == name && r.arguments == arguments && Outcome(log, r)
  }

  lemma SettledOutcome(log: seq<EventData>, r: ToolResult, state: CallState, omitted: set<CallId>, note: string -> string)
    requires ResultTold(log, r, state, omitted, note) && (state == Refused || state == Done) && r.call !in omitted
    ensures Outcome(log, r)
  {
    if state == Done {
      var d :| d in log && CompletedAs(d, r, omitted, note);
      assert Gave(d, r);
    }
  }

  lemma AskedWith(log: seq<EventData>, r: ToolResult, name: string, arguments: string)
    requires Proper(log) && ToolRequested(r.call, r.name, r.arguments) in log && ToolRequested(r.call, name, arguments) in log
    ensures r.name == name && r.arguments == arguments
  {
    var i :| 0 <= i < |log| && log[i] == ToolRequested(r.call, r.name, r.arguments);
    var j :| 0 <= j < |log| && log[j] == ToolRequested(r.call, name, arguments);
    AskedOnce(log, i, j);
  }

  /** Results of a history show every settled call whose output is not left out. */
  lemma ResultsShow(log: seq<EventData>, omitted: set<CallId>, note: string -> string, call: CallId, name: string, arguments: string)
    requires Proper(log) && AskedAndSettled(log, call, name, arguments) && call !in omitted
    ensures ShowsCall(Results(log, omitted, note), log, call, name, arguments)
  {
    var results := Results(log, omitted, note);
    EveryCallOnce(log, omitted, note);
    TellsWhatHappened(log, omitted, note);
    assert call in Requested(log) && ResultCalls(results) == Requested(log);
    var i :| 0 <= i < |results| && ResultCalls(results)[i] == call;
    AskedWith(log, results[i], name, arguments);
    SettledOutcome(log, results[i], CallStates(log)[call], omitted, note);
    assert results[i] in results;
  }

  lemma BehindOpening(opening: seq<EventData>, log: seq<EventData>, call: CallId, name: string, arguments: string)
    requires NoCalls(opening) && Proper(log) && AskedAndSettled(log, call, name, arguments)
    ensures Proper(opening + log) && AskedAndSettled(opening + log, call, name, arguments)
  {
    ProperBehind(opening, log);
  }

  lemma SoundUpTo(log: seq<EventData>, terms: Terms, n: nat)
    requires Sound(log, terms) && n <= |log|
    ensures Sound(log[..n], terms)
  {
    if n < |log| {
      SoundAt(log, terms, n);
    } else {
      assert log[..n] == log;
    }
  }

  lemma HandledInExchange(k: Case, before: seq<EventData>, after: seq<EventData>, st: Standing, x: Exchange, j: nat)
    requires Exchanged(k, before, after, st, x) && j < |x.response.toolCalls|
    ensures AskedAndSettled(after, st.nextCall + j, x.response.toolCalls[j].name, x.response.toolCalls[j].arguments)
  {
    ExchangedIs(k, before, after, st, x);
    RoundSettles(k.world, x.applied, st.nextCall, x.response.toolCalls, PastLimit(k.terms, st), Runnable(k.has.runner, x.ir), j);
  }

  lemma RoundIsLatest(terms: Terms, xs: seq<Exchange>, i: nat, j: nat)
    requires i < |xs| && j < |xs[i].response.toolCalls|
    ensures StandingAfter(terms, xs[..i]).nextCall + j in StandingAfter(terms, xs[..i + 1]).latestRound
  {
    assert xs[..i + 1][..i] == xs[..i];
    CallIdsAre(StandingAfter(terms, xs[..i]).nextCall, |xs[i].response.toolCalls|);
  }

  /** A reply's calls have been asked for and settled once its exchange is over. */
  lemma CallSettled(k: Case, logs: seq<seq<EventData>>, xs: seq<Exchange>, i: nat, j: nat)
    requires Conversed(k, logs, xs) && NoCalls(k.opening) && Sound(logs[|xs|], k.terms)
    requires i < |xs| && j < |xs[i].response.toolCalls|
    ensures Proper(k.opening + logs[i + 1])
    ensures var call := xs[i].response.toolCalls[j];
      AskedAndSettled(k.opening + logs[i + 1], StandingAfter(k.terms, xs[..i]).nextCall + j, call.name, call.arguments)
  {
    var call, id, log := xs[i].response.toolCalls[j], StandingAfter(k.terms, xs[..i]).nextCall + j, logs[i + 1];
    RecordGrows(k, logs, xs, i + 1, |xs|);
    SoundUpTo(logs[|xs|], k.terms, |log|);
    SoundIsProper(log, k.terms);
    LeadsFrom(k, logs, xs, i);
    HandledInExchange(k, logs[i], log, StandingAfter(k.terms, xs[..i]), xs[i], j);
    BehindOpening(k.opening, log, id, call.name, call.arguments);
  }

  /** Whatever a reply asked for, the next IR shows: every call of the round, under its name and with its arguments, refused with the reason or
      with the whole output it gave, however little fits the model's window. */
  lemma SeesItsCalls(k: Case, logs: seq<seq<EventData>>, xs: seq<Exchange>, i: nat, j: nat)
    requires Conversed(k, logs, xs) && NoCalls(k.opening) && Sound(logs[|xs|], k.terms)
    requires i + 1 < |xs| && j < |xs[i].response.toolCalls|
    ensures var call := xs[i].response.toolCalls[j];
      ShowsCall(xs[i + 1].ir.toolResults, k.opening + logs[i + 1], StandingAfter(k.terms, xs[..i]).nextCall + j, call.name, call.arguments)
  {
    var call, id, log := xs[i].response.toolCalls[j], StandingAfter(k.terms, xs[..i]).nextCall + j, logs[i + 1];
    CallSettled(k, logs, xs, i, j);
    LeadsFrom(k, logs, xs, i + 1);
    var omitted := ShownIn(k, log, logs[i + 2], StandingAfter(k.terms, xs[..i + 1]), xs[i + 1]);
    RoundIsLatest(k.terms, xs, i, j);
    ResultsShow(k.opening + log, omitted, k.note, id, call.name, call.arguments);
  }
}
