/** What an executing run may record: the rules its events keep, one by one, and what follows for whole
    histories. */
module Execution {
  import opened Common
  import opened Records
  import opened ToolLog
  import Responses
  import Projection

  // ---- What a run's history may hold ----

  function Inferences(log: seq<EventData>): nat {
    if log == [] then 0 else Inferences(log[..|log| - 1]) + if log[|log| - 1].InferenceStarted? then 1 else 0
  }

  predicate AsksForTools(d: EventData) { d.ResponseValidated? && d.response.toolCalls != [] }

  /** The tool rounds begun. */
  function Rounds(log: seq<EventData>): nat {
    if log == [] then 0 else Rounds(log[..|log| - 1]) + if AsksForTools(log[|log| - 1]) then 1 else 0
  }

  function Reviews(log: seq<EventData>): nat {
    if log == [] then 0 else Reviews(log[..|log| - 1]) + if log[|log| - 1].ReviewCompleted? then 1 else 0
  }

  /** The latest IR. */
  function Shown(log: seq<EventData>): Option<Ir> {
    if log == [] then None
    else if log[|log| - 1].IrCompiled? then Some(log[|log| - 1].ir)
    else Shown(log[..|log| - 1])
  }

  /** The tools it lists. */
  function Offered(log: seq<EventData>): seq<string> {
    if Shown(log).Some? then Shown(log).value.tools else []
  }

  /** What Jev was asked to classify. */
  function AskedFor(log: seq<EventData>): Option<Request> {
    if log == [] then None
    else if log[|log| - 1].JevRequested? then Some(log[|log| - 1].request)
    else AskedFor(log[..|log| - 1])
  }

  /** What was classified. */
  function Classified(log: seq<EventData>): Option<Classification> {
    if log == [] then None
    else if log[|log| - 1].JevClassified? then Some(log[|log| - 1].classification)
    else Classified(log[..|log| - 1])
  }

  predicate Hidden(entries: seq<ToolEntry>, name: string) { exists i :: 0 <= i < |entries| && entries[i].name == name && !entries[i].active }

  /** The tools a model sees: those not classified inactive. */
  function Exposed(tools: seq<string>, entries: seq<ToolEntry>): (exposed: seq<string>)
    ensures forall name :: name in exposed <==> name in tools && !Hidden(entries, name)
  {
    if tools == [] then []
    else
      var rest := Exposed(tools[..|tools| - 1], entries);
      var last := tools[|tools| - 1];
      assert tools == tools[..|tools| - 1] + [last];
      if Hidden(entries, last) then rest else rest + [last]
  }

  /** What a run is executed under: how many tool rounds and reviews it gets, and the tools on offer. */
  datatype Terms = Terms(toolRounds: nat, reviews: nat, tools: seq<string>)

  predicate Ended(log: seq<EventData>) { log != [] && (log[|log| - 1].RunCompleted? || log[|log| - 1].RunFailed?) }

  /** A response is valid against the latest IR. */
  predicate Answers(log: seq<EventData>, response: Response) {
    Shown(log).Some? && Responses.ValidResponse(response, Shown(log).value)
  }

  /** A decision answers the request just recorded; it allows the call only while rounds are left and
      only if the IR lists the tool. */
  predicate Decides(log: seq<EventData>, d: EventData, terms: Terms)
    requires d.ToolDecided?
  {
    log != [] && log[|log| - 1].ToolRequested? && log[|log| - 1].call == d.call
    && (d.allowed ==> Rounds(log) <= terms.toolRounds && log[|log| - 1].name in Offered(log))
  }

  /** Jev is asked once, first of all, and what it classifies is valid for what it was asked. */
  predicate Classifies(log: seq<EventData>, d: EventData)
    requires d.JevClassified?
  {
    AskedFor(log).Some? && Classified(log).None? && Projection.ValidClassification(AskedFor(log).value, d.classification)
  }

  /** An IR lists the tools that classification left. */
  predicate Compiles(log: seq<EventData>, d: EventData, terms: Terms)
    requires d.IrCompiled?
  {
    Classified(log).Some? && d.ir.tools == Exposed(terms.tools, Classified(log).value.tools)
  }

  /** Whether `d` may be recorded next. */
  predicate MayRecord(log: seq<EventData>, d: EventData, terms: Terms) {
    !Ended(log) && MayFollow(CallStates(log), d)
    && (d.ToolRequested? ==> d.call == |Requested(log)| + 1)
    && (d.ToolDecided? ==> Decides(log, d, terms))
    && (d.ToolCompleted? ==> log != [] && log[|log| - 1].ToolDecided? && log[|log| - 1].call == d.call && Rounds(log) <= terms.toolRounds)
    && (d.InferenceStarted? ==> log != [] && log[|log| - 1].IrCompiled?)
    && (d.ResponseValidated? ==> log != [] && log[|log| - 1].InferenceCompleted? && Answers(log, d.response))
    && (d.JevRequested? ==> log == []) && (d.JevClassified? ==> Classifies(log, d)) && (d.IrCompiled? ==> Compiles(log, d, terms))
    && (d.ReviewCompleted? ==> d.round == Reviews(log) + 1 && d.round <= terms.reviews)
  }

  /** Every event was allowed when it was recorded: Jev is asked first and answers once, validly; IRs list
      the tools it left; each inference answers the IR just compiled, each response the inference just
      completed, and is valid against that IR; calls are numbered, and handled one at a time; a call is
      allowed only while tool rounds are left and only if the IR lists its tool; reviews are numbered;
      and nothing follows the end. */
  predicate Sound(log: seq<EventData>, terms: Terms) {
    log == [] || (Sound(log[..|log| - 1], terms) && MayRecord(log[..|log| - 1], log[|log| - 1], terms))
  }

  /** Events that none of the above counts. */
  predicate Quiet(d: EventData) {
    !d.ToolRequested? && !d.ToolDecided? && !d.ToolCompleted? && !d.InferenceStarted? && !d.ResponseValidated?
    && !d.ReviewCompleted? && !d.IrCompiled? && !d.JevRequested? && !d.JevClassified? && !d.RunCompleted? && !d.RunFailed?
  }

  predicate SameCounts(a: seq<EventData>, b: seq<EventData>) {
    Inferences(a) == Inferences(b) && Rounds(a) == Rounds(b) && Reviews(a) == Reviews(b) && Shown(a) == Shown(b)
    && AskedFor(a) == AskedFor(b) && Classified(a) == Classified(b) && CallStates(a) == CallStates(b) && Requested(a) == Requested(b)
  }

  predicate SameRounds(a: seq<EventData>, b: seq<EventData>) {
    Inferences(a) == Inferences(b) && Rounds(a) == Rounds(b) && Reviews(a) == Reviews(b) && Shown(a) == Shown(b)
    && Classified(a) == Classified(b)
  }

  predicate SameTools(a: seq<EventData>, b: seq<EventData>) { SameRounds(a, b) && Requested(a) == Requested(b) }

  // ---- What the world answers ----

  datatype Decision = Allow(decider: Decider, note: Option<string>) | Deny(decider: Decider, reason: string)

  function Decided(call: CallId, decision: Decision): EventData {
    ToolDecided(call, decision.Allow?, decision.decider, match decision case Allow(_, note) => note case Deny(_, reason) => Some(reason))
  }

  /** What an executed call gives; an error or a timeout is an output too. */
  datatype ToolOutput = ToolOutput(output: string, isError: bool)

  /** What a provider streams, and its whole output, unless it fails or is late. */
  datatype Inference = Inference(texts: seq<string>, raw: Option<string>, late: bool)

  /** How many functions a review judged, what it found, and the code it was of. */
  datatype Reviewed = Reviewed(judged: nat, findings: seq<Finding>, fingerprint: string)

  datatype ReviewAnswer = ReviewAnswer(review: Reviewed, error: Option<string>)

  /** Whatever a run's execution is told from outside, by the number of the exchange or the id of the call that asks for it: what Jev
      and its fallback classify, whether the message asks for everything and how relevant earlier turns are, the model's window, which results
      are no longer relevant, what the provider gives and what a reply says, what the gate decides, what tools give, and what reviews find. */
  datatype World = World(jev: nat -> Option<Classification>, everything: bool, scores: Option<seq<real>>, budget: Option<nat>,
                         irrelevant: nat -> set<CallId>, provider: nat -> Inference, reply: string -> Response,
                         gate: CallId -> Decision, tool: CallId -> ToolOutput, reviewer: nat -> ReviewAnswer)

  // ---- Handling calls ----

  /** A call past the limit is refused, as is one of a tool that is not available; the gate decides the others. */
  function Ruling(w: World, call: CallId, overLimit: bool, available: bool): Decision {
    if overLimit then Deny(ByLimit, "limit") else if !available then Deny(ByUnavailable, "unavailable") else w.gate(call)
  }

  /** What carrying a decision out records: the decision, and what the call gave if it was allowed. */
  function Consequence(w: World, call: CallId, decision: Decision): seq<EventData> {
    if decision.Deny? then [Decided(call, decision)]
    else [Decided(call, decision), ToolCompleted(call, w.tool(call).output, w.tool(call).isError)]
  }

  /** What handling a call records: the request, and what its ruling comes to. */
  function CallEvents(w: World, call: CallId, name: string, arguments: string, overLimit: bool, available: bool): seq<EventData> {
    [ToolRequested(call, name, arguments)] + Consequence(w, call, Ruling(w, call, overLimit, available))
  }

  predicate Handled(w: World, before: seq<EventData>, after: seq<EventData>, call: CallId, name: string, arguments: string, overLimit: bool,
                    available: bool)
  {
    after == before + CallEvents(w, call, name, arguments, overLimit, available)
  }

  /** What handling a round's calls records: each in turn, in order. */
  function RoundEvents(w: World, first: CallId, calls: seq<ToolCall>, overLimit: bool, available: set<string>): seq<EventData> {
    if calls == [] then []
    else
      var k := |calls| - 1;
      RoundEvents(w, first, calls[..k], overLimit, available)
      + CallEvents(w, first + k, calls[k].name, calls[k].arguments, overLimit, calls[k].name in available)
  }

  predicate HandledAll(w: World, before: seq<EventData>, after: seq<EventData>, first: CallId, calls: seq<ToolCall>, overLimit: bool,
                       available: set<string>)
  {
    after == before + RoundEvents(w, first, calls, overLimit, available)
  }

  lemma EventsAssociate(a: seq<EventData>, b: seq<EventData>, c: seq<EventData>)
    ensures a + b + c == a + (b + c)
  {
  }

  lemma HandledNext(w: World, before: seq<EventData>, mid: seq<EventData>, after: seq<EventData>, first: CallId, calls: seq<ToolCall>, k: nat,
                    overLimit: bool, available: set<string>)
    requires k < |calls| && HandledAll(w, before, mid, first, calls[..k], overLimit, available)
    requires Handled(w, mid, after, first + k, calls[k].name, calls[k].arguments, overLimit, calls[k].name in available)
    ensures HandledAll(w, before, after, first, calls[..k + 1], overLimit, available)
  {
    assert calls[..k + 1][..k] == calls[..k];
    EventsAssociate(before, RoundEvents(w, first, calls[..k], overLimit, available),
                    CallEvents(w, first + k, calls[k].name, calls[k].arguments, overLimit, calls[k].name in available));
  }

  lemma RequestedLast(log: seq<EventData>, terms: Terms)
    requires Sound(log, terms) && log != [] && log[|log| - 1].ToolRequested?
    ensures log[|log| - 1].call in CallStates(log) && CallStates(log)[log[|log| - 1].call] == Asked
  {
  }

  lemma LastDecided(log: seq<EventData>, terms: Terms)
    requires Sound(log, terms) && log != [] && log[|log| - 1].ToolDecided? && log[|log| - 1].allowed
    ensures log[|log| - 1].call in CallStates(log) && CallStates(log)[log[|log| - 1].call] == Approved
  {
  }

  lemma RecordStep(log: seq<EventData>, d: EventData)
    ensures Inferences(log + [d]) == Inferences(log) + if d.InferenceStarted? then 1 else 0
    ensures Rounds(log + [d]) == Rounds(log) + if AsksForTools(d) then 1 else 0
    ensures Reviews(log + [d]) == Reviews(log) + if d.ReviewCompleted? then 1 else 0
    ensures Shown(log + [d]) == if d.IrCompiled? then Some(d.ir) else Shown(log)
    ensures AskedFor(log + [d]) == if d.JevRequested? then Some(d.request) else AskedFor(log)
    ensures Classified(log + [d]) == if d.JevClassified? then Some(d.classification) else Classified(log)
    ensures CallStates(log + [d]) == CallEvent(CallStates(log), d)
    ensures Requested(log + [d]) == if d.ToolRequested? then Requested(log) + [d.call] else Requested(log)
  {
    assert (log + [d])[..|log|] == log;
  }

  lemma SoundNext(log: seq<EventData>, d: EventData, terms: Terms)
    ensures Sound(log + [d], terms) <==> Sound(log, terms) && MayRecord(log, d, terms)
  {
    assert (log + [d])[..|log|] == log;
  }

  /** Call ids are 1, 2, 3, …, so no id is ever used twice. */
  lemma {:induction false} CallsNumbered(log: seq<EventData>, terms: Terms)
    requires Sound(log, terms)
    ensures forall i | 0 <= i < |Requested(log)| :: Requested(log)[i] == i + 1
    ensures forall c :: c in CallStates(log) <==> 1 <= c <= |Requested(log)|
  {
    if log != [] {
      CallsNumbered(log[..|log| - 1], terms);
    }
  }

  /** A sound history keeps the protocol of calls that IR and the inspector rely on. */
  lemma {:induction false} SoundIsProper(log: seq<EventData>, terms: Terms)
    requires Sound(log, terms)
    ensures Proper(log)
  {
    if log != [] {
      SoundIsProper(log[..|log| - 1], terms);
    }
  }

  /** A run's opening: no tool events. */
  predicate NoCalls(opening: seq<EventData>) {
    forall i | 0 <= i < |opening| :: !opening[i].ToolRequested? && !opening[i].ToolDecided? && !opening[i].ToolCompleted?
  }

  lemma {:induction false} NoCallStates(opening: seq<EventData>)
    requires NoCalls(opening)
    ensures Proper(opening) && CallStates(opening) == map[] && Requested(opening) == []
  {
    if opening != [] {
      NoCallStates(opening[..|opening| - 1]);
    }
  }

  /** Put behind an opening, a sound record still keeps the protocol. */
  lemma {:induction false} ProperBehind(opening: seq<EventData>, log: seq<EventData>)
    requires NoCalls(opening) && Proper(log)
    ensures Proper(opening + log) && CallStates(opening + log) == CallStates(log) && Requested(opening + log) == Requested(log)
  {
    if log == [] {
      NoCallStates(opening);
      assert opening + log == opening;
    } else {
      assert (opening + log)[..|opening + log| - 1] == opening + log[..|log| - 1];
      ProperBehind(opening, log[..|log| - 1]);
    }
  }

  /** Reviews are numbered 1, 2, …, and there are at most as many as allowed. */
  lemma {:induction false} ReviewsNumbered(log: seq<EventData>, terms: Terms, i: nat)
    requires Sound(log, terms) && i < |log| && log[i].ReviewCompleted?
    ensures log[i].round == Reviews(log[..i]) + 1 && log[i].round <= terms.reviews
    decreases |log|
  {
    if i < |log| - 1 {
      ReviewsNumbered(log[..|log| - 1], terms, i);
      assert log[..|log| - 1][..i] == log[..i];
    }
  }

  lemma {:induction false} ReviewsBounded(log: seq<EventData>, terms: Terms)
    requires Sound(log, terms)
    ensures Reviews(log) <= terms.reviews
  {
    if log != [] {
      ReviewsBounded(log[..|log| - 1], terms);
    }
  }

  /** No call is allowed, let alone executed, in a round past the limit, and none of a tool the IR it
      answers does not list. */
  lemma {:induction false} NoCallPastLimit(log: seq<EventData>, terms: Terms, i: nat)
    requires Sound(log, terms) && i < |log|
    requires (log[i].ToolDecided? && log[i].allowed) || log[i].ToolCompleted?
    ensures Rounds(log[..i]) <= terms.toolRounds && i > 0
    ensures log[i].ToolDecided? ==> log[i - 1].ToolRequested? && log[i - 1].call == log[i].call && log[i - 1].name in Offered(log[..i])
    decreases |log|
  {
    if i < |log| - 1 {
      NoCallPastLimit(log[..|log| - 1], terms, i);
      assert log[..|log| - 1][..i] == log[..i];
    }
  }

  lemma {:induction false} OfferedIsExposed(log: seq<EventData>, terms: Terms)
    requires Sound(log, terms) && Shown(log).Some?
    ensures Classified(log).Some? && Offered(log) == Exposed(terms.tools, Classified(log).value.tools)
  {
    if !log[|log| - 1].IrCompiled? {
      OfferedIsExposed(log[..|log| - 1], terms);
    }
  }

  /** A tool that Jev classified inactive, or that is not on offer, is never allowed to run, whatever the
      model asks for and whoever is asked. */
  lemma HiddenNeverRuns(log: seq<EventData>, terms: Terms, i: nat)
    requires Sound(log, terms) && i < |log| && log[i].ToolDecided? && log[i].allowed
    ensures i > 0 && log[i - 1].ToolRequested? && log[i - 1].call == log[i].call
    ensures Classified(log[..i]).Some?
    ensures log[i - 1].name in terms.tools && !Hidden(Classified(log[..i]).value.tools, log[i - 1].name)
  {
    SoundAt(log, terms, i);
    NoCallPastLimit(log, terms, i);
    OfferedIsExposed(log[..i], terms);
  }

  lemma {:induction false} ShownWasCompiled(log: seq<EventData>)
    requires Shown(log).Some?
    ensures exists i :: 0 <= i < |log| && log[i] == IrCompiled(Shown(log).value)
  {
    if log[|log| - 1].IrCompiled? {
      assert log[|log| - 1] == IrCompiled(Shown(log).value);
    } else {
      ShownWasCompiled(log[..|log| - 1]);
      var i :| 0 <= i < |log| - 1 && log[..|log| - 1][i] == IrCompiled(Shown(log).value);
      assert log[i] == IrCompiled(Shown(log).value);
    }
  }

  lemma {:induction false} AskedForWasRequested(log: seq<EventData>)
    requires AskedFor(log).Some?
    ensures exists i :: 0 <= i < |log| && log[i] == JevRequested(AskedFor(log).value)
  {
    if log[|log| - 1].JevRequested? {
      assert log[|log| - 1] == JevRequested(AskedFor(log).value);
    } else {
      AskedForWasRequested(log[..|log| - 1]);
      var i :| 0 <= i < |log| - 1 && log[..|log| - 1][i] == JevRequested(AskedFor(log).value);
      assert log[i] == JevRequested(AskedFor(log).value);
    }
  }

  lemma {:induction false} SoundAt(log: seq<EventData>, terms: Terms, i: nat)
    requires Sound(log, terms) && i < |log|
    ensures Sound(log[..i], terms) && MayRecord(log[..i], log[i], terms)
    decreases |log|
  {
    if i < |log| - 1 {
      SoundAt(log[..|log| - 1], terms, i);
      assert log[..|log| - 1][..i] == log[..i];
    }
  }

  // ---- Recording several quiet events ----

  predicate AllQuiet(more: seq<EventData>) { forall i | 0 <= i < |more| :: Quiet(more[i]) }

  lemma {:induction false} QuietKeeps(log: seq<EventData>, quiet: seq<EventData>, terms: Terms)
    requires Sound(log, terms) && !Ended(log) && AllQuiet(quiet)
    ensures Sound(log + quiet, terms) && SameCounts(log + quiet, log) && !Ended(log + quiet)
  {
    if quiet == [] {
      assert log + quiet == log;
    } else {
      var init, d := quiet[..|quiet| - 1], quiet[|quiet| - 1];
      QuietKeeps(log, init, terms);
      RecordStep(log + init, d);
      SoundNext(log + init, d, terms);
      assert log + quiet == log + init + [d];
    }
  }
}
