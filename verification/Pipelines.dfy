/** Executing a run on the store: tool rounds and review rounds, whatever the provider, the gate, the tools
    and the code review answer, whatever other runs do meanwhile, and wherever the run is stopped. */
module Pipelines {
  import opened Common
  import opened Records
  import opened ToolLog
  import opened Execution
  import opened Announced
  import opened Journals
  import opened Exchanges
  import Database
  import Fitting
  import Histories
  import Invariants
  import Projection
  import Reachable
  import Responses
  import Turns

  // ---- What transactions of several events add to a sound record ----

  lemma MovesQuiet(moves: seq<EventData>)
    requires Changes(moves)
    ensures AllQuiet(moves)
  {
  }

  lemma FoundQuiet(more: seq<EventData>)
    requires Found(more)
    ensures AllQuiet(more)
  {
  }

  lemma CreationsQuiet(more: seq<EventData>)
    requires Creations(more)
    ensures AllQuiet(more)
  {
  }

  /** A sound record that has not ended. */
  predicate Open(log: seq<EventData>, terms: Terms) { Sound(log, terms) && !Ended(log) }

  lemma StaysOpen(log: seq<EventData>, d: EventData, terms: Terms)
    requires Open(log, terms) && MayRecord(log, d, terms) && !d.RunCompleted? && !d.RunFailed?
    ensures Open(log + [d], terms)
  {
    SoundNext(log, d, terms);
  }

  lemma QuietStaysOpen(log: seq<EventData>, quiet: seq<EventData>, terms: Terms)
    requires Open(log, terms) && AllQuiet(quiet)
    ensures Open(log + quiet, terms) && SameCounts(log + quiet, log)
  {
    QuietKeeps(log, quiet, terms);
  }

  /** One counted event and then quiet ones. */
  lemma HeadThenQuiet(log: seq<EventData>, head: EventData, quiet: seq<EventData>, terms: Terms)
    requires Sound(log, terms) && MayRecord(log, head, terms) && !head.RunCompleted? && !head.RunFailed? && AllQuiet(quiet)
    ensures var after := log + ([head] + quiet); Sound(after, terms) && !Ended(after) && SameCounts(after, log + [head])
  {
    SoundNext(log, head, terms);
    QuietKeeps(log + [head], quiet, terms);
    Regroup(log, [head], quiet);
  }

  lemma ReplySound(log: seq<EventData>, response: Response, ids: seq<nat>, terms: Terms)
    requires |ids| == |response.emissions| && Database.EndpointsResolve(Database.RefsOf(response.emissions), response.emissions)
    requires Sound(log, terms) && MayRecord(log, ResponseValidated(response), terms)
    ensures var after := log + ReplyEvents(response, ids);
      Sound(after, terms) && !Ended(after) && SameCounts(after, log + [ResponseValidated(response)])
  {
    var events := ReplyEvents(response, ids);
    ReplyCreates(response, ids, 0);
    CreationsQuiet(events[1..]);
    assert events == [ResponseValidated(response)] + events[1..];
    HeadThenQuiet(log, ResponseValidated(response), events[1..], terms);
  }

  /** The evidence and the failure end a sound record soundly. */
  lemma EndingSound(log: seq<EventData>, evidence: Option<EventData>, code: ErrorCode, message: string, terms: Terms)
    requires Sound(log, terms) && !Ended(log) && (evidence.Some? ==> Histories.IsEvidence(evidence.value))
    ensures var after := log + Ending(evidence, code, message);
      Sound(after, terms) && Ended(after) && Inferences(after) == Inferences(log) && Rounds(after) == Rounds(log)
  {
    var quiet := if evidence.Some? then [evidence.value] else [];
    QuietKeeps(log, quiet, terms);
    RecordStep(log + quiet, RunFailed(code, message));
    SoundNext(log + quiet, RunFailed(code, message), terms);
    Regroup(log, quiet, [RunFailed(code, message)]);
  }

  lemma CompletionSound(log: seq<EventData>, terms: Terms)
    requires Open(log, terms)
    ensures var after := log + [RunCompleted];
      Sound(after, terms) && Inferences(after) == Inferences(log) && Rounds(after) == Rounds(log)
  {
    RecordStep(log, RunCompleted);
    SoundNext(log, RunCompleted, terms);
  }

  lemma DeltaNext(log: seq<EventData>, texts: seq<string>, text: string)
    ensures log + Deltas(texts) + [InferenceDelta(text)] == log + Deltas(texts + [text])
  {
  }

  // ---- Failures and answers ----

  datatype Failure = Failure(code: ErrorCode, evidence: Option<EventData>)

  function Internally<T>(): Result<T, Failure> { Err(Failure(Internal, None)) }

  /** A failure comes with evidence exactly if something was rejected, and then it says what was: Jev's output, or a reply. */
  predicate EvidenceOk(f: Failure) {
    match f.code
    case JevInvalidOutput => f.evidence.Some? && f.evidence.value.JevRejected?
    case ResponseInvalid => f.evidence.Some? && f.evidence.value.ResponseRejected?
    case EmissionRejected => f.evidence.Some? && f.evidence.value.ResponseRejected?
    case _ => f.evidence.None?
  }

  /** Refusals that are the reply's own fault. */
  predicate IsViolation(e: StoreError) { e.UnknownNode? || e.SelfLoop? || e.DuplicateEdge? || e.Cycle? }

  function Max(a: nat, b: nat): nat { if a < b then b else a }

  /** Exactly `n` of what was drawn. */
  function Drawn<T>(s: seq<T>, n: nat, default: T): (t: seq<T>)
    ensures |t| == n
  {
    if |s| == n then s else seq(n, _ => default)
  }

  lemma TwoEvents(log: seq<EventData>, d: EventData, e: EventData)
    ensures log + [d] + [e] == log + [d, e]
  {
  }

  lemma LastIs(log: seq<EventData>, d: EventData)
    ensures log + [d] != [] && (log + [d])[|log + [d]| - 1] == d
  {
  }

  predicate SameButReviews(a: seq<EventData>, b: seq<EventData>) {
    Inferences(a) == Inferences(b) && Rounds(a) == Rounds(b) && Requested(a) == Requested(b) && Classified(a) == Classified(b)
  }

  lemma PrefixNext(s: seq<string>, k: nat)
    requires k < |s|
    ensures s[..k] + [s[k]] == s[..k + 1]
  {
  }

  lemma InferredCounts(log: seq<EventData>, told: seq<string>, terms: Terms)
    requires Open(log, terms) && log != [] && log[|log| - 1].IrCompiled?
    ensures SameCounts(log + [InferenceStarted] + Deltas(told), log + [InferenceStarted])
    ensures var after := log + [InferenceStarted];
      Inferences(after) == Inferences(log) + 1 && Rounds(after) == Rounds(log) && Reviews(after) == Reviews(log)
      && Shown(after) == Shown(log) && Requested(after) == Requested(log) && Classified(after) == Classified(log)
  {
    RecordStep(log, InferenceStarted);
    StaysOpen(log, InferenceStarted, terms);
    QuietStaysOpen(log + [InferenceStarted], Deltas(told), terms);
  }

  function Excuse(f: Failure, reason: string): seq<EventData> {
    (if f.evidence.Some? then [f.evidence.value] else []) + [JevFallback(reason)]
  }

  lemma ExpandedTold(before: seq<EventData>, after: seq<EventData>)
    requires exists moves :: Changes(moves) && after == before + ([ContextExpanded] + moves)
    ensures ContextExpanded in after
  {
    assert after[|before|] == ContextExpanded;
  }

  lemma OnlyAsked(request: Request)
    ensures var log := [JevRequested(request)]; Unstarted(log) && AskedFor(log) == Some(request) && Classified(log).None?
  {
    RecordStep([], JevRequested(request));
    assert [] + [JevRequested(request)] == [JevRequested(request)];
  }

  function Chosen(candidates: seq<RecalledTurn>, everything: bool, scores: Option<seq<real>>): seq<Turns.Scored> {
    if everything then Turns.RecallEverything(candidates)
    else if scores.Some? then Turns.SelectRecalled(candidates, scores.value)
    else []
  }

  lemma ChosenIs(now: Database.Db, run: RunId, window: nat, text: seq<Event> -> string, w: World)
    requires run in now.runs
    ensures RecalledFrom(now, run, window, text, w, Chosen(Turns.Told(now, Turns.Candidates(now.runs, run, window), text), w.everything, w.scores))
  {
  }

  // ---- The pipeline ----

  /** One run being executed. The world is arbitrary, and at every await the run may be stopped. */
  class Pipeline {
    const journal: Journal
    const terms: Terms
    const has: Has
    const world: World
    const conversationWindow: nat
    const size: Ir -> nat
    const bytes: string -> nat
    const text: seq<Event> -> string
    /** The reviews the run has had and the code the latest one handed back. */
    var reviewed: nat
    var fingerprint: Option<string>

    ghost function Log(): seq<EventData> reads journal { journal.Log() }

    /** A failure has its evidence and its cause. */
    ghost predicate FailsOk<T>(s: Result<T, Failure>) reads journal.blame { s.Err? ==> EvidenceOk(s.error) && s.error.code in journal.blame.causes }

    ghost predicate Valid() reads this, journal, journal.store {
      journal.Valid() && journal.Live() && Open(Log(), terms)
    }

    constructor (journal: Journal, terms: Terms, has: Has, world: World, conversationWindow: nat,
                 size: Ir -> nat, bytes: string -> nat, text: seq<Event> -> string)
      requires journal.Valid() && journal.Live() && journal.Log() == []
      ensures Valid() && Log() == [] && reviewed == 0 && fingerprint == None
      ensures this.journal == journal && this.terms == terms && this.has == has && this.world == world
    {
      this.journal, this.terms := journal, terms;
      this.has, this.world := has, world;
      this.conversationWindow, this.size, this.bytes, this.text := conversationWindow, size, bytes, text;
      reviewed, fingerprint := 0, None;
    }

    /** Records one event, if the store takes it. */
    method Record(d: EventData) returns (ok: bool)
      requires Valid() && Histories.IsNote(d) && MayRecord(Log(), d, terms)
      modifies journal, journal.store, journal.blame
      ensures Valid() && Log() == if ok then old(Log()) + [d] else old(Log())
      ensures !ok ==> Internal in journal.blame.causes
    {
      StaysOpen(Log(), d, terms);
      ok := journal.Record(d);
    }

    // ---- Classification ----

    /** Records what Jev is asked. */
    method Ask() returns (r: Option<Request>)
      requires Valid() && Log() == []
      modifies journal, journal.store, journal.blame
      ensures Valid() && Log() == if r.Some? then [JevRequested(r.value)] else []
      ensures r.None? ==> Internal in journal.blame.causes
    {
      r := journal.Ask(terms.tools);
      if r.Some? {
        StaysOpen([], JevRequested(r.value), terms);
        assert [] + [JevRequested(r.value)] == [JevRequested(r.value)];
      }
    }

    /** Asks Jev what to classify the request as, and then its fallback, if it has one. */
    method Consult(request: Request) returns (r: Result<Classification, Failure>)
      requires Valid()
      modifies journal, journal.store, journal.blame
      ensures Valid() && FailsOk(r) && SameCounts(Log(), old(Log()))
      ensures r.Ok? ==> JevAnswers(world, has.fallback, request, r.value)
      ensures r.Err? && (r.error.code == JevFailed || r.error.code == JevInvalidOutput) ==> NoAnswer(world, has.fallback, request)
    {
      r := AskJev(request, 0);
      if r.Err? && r.error.code != Cancelled && has.fallback {
        r := ConsultFallback(request, r.error);
      }
    }

    /** Asks the fallback, Jev having given nothing valid. */
    method ConsultFallback(request: Request, f: Failure) returns (r: Result<Classification, Failure>)
      requires Valid() && EvidenceOk(f) && has.fallback
      requires !(world.jev(0).Some? && Projection.ValidClassification(request, world.jev(0).value))
      modifies journal, journal.store, journal.blame
      ensures Valid() && FailsOk(r) && SameCounts(Log(), old(Log()))
      ensures r.Ok? ==> JevAnswers(world, has.fallback, request, r.value)
      ensures r.Err? && (r.error.code == JevFailed || r.error.code == JevInvalidOutput) ==> NoAnswer(world, has.fallback, request)
    {
      var ok; ghost var why;
      ok, why := FallBack(f);
      if !ok { return Internally(); }
      r := AskJev(request, 1);
    }

    /** Asks Jev, then its fallback if it has one, and applies what was classified. */
    method ClassifyContext() returns (r: Result<Classification, Failure>)
      requires Valid() && Log() == []
      modifies journal, journal.store, journal.blame
      ensures Valid() && FailsOk(r) && Unstarted(Log())
      ensures r.Ok? ==>
        Classified(Log()) == Some(r.value) && AskedFor(Log()).Some? && JevAnswers(world, has.fallback, AskedFor(Log()).value, r.value)
      ensures r.Err? && (r.error.code == JevFailed || r.error.code == JevInvalidOutput) ==>
        AskedFor(Log()).Some? && NoAnswer(world, has.fallback, AskedFor(Log()).value)
    {
      var request := Ask();
      if request.None? { return Internally(); }
      OnlyAsked(request.value);
      r := ClassifyAs(request.value);
    }

    /** Has what Jev was asked classified, and applies the answer. */
    method ClassifyAs(request: Request) returns (r: Result<Classification, Failure>)
      requires Valid() && Unstarted(Log()) && AskedFor(Log()) == Some(request) && Classified(Log()).None?
      modifies journal, journal.store, journal.blame
      ensures Valid() && FailsOk(r) && Unstarted(Log()) && AskedFor(Log()) == Some(request)
      ensures r.Ok? ==> Classified(Log()) == Some(r.value) && JevAnswers(world, has.fallback, request, r.value)
      ensures r.Err? && (r.error.code == JevFailed || r.error.code == JevInvalidOutput) ==> NoAnswer(world, has.fallback, request)
    {
      r := Consult(request);
      if r.Ok? {
        RecordStep(Log(), JevClassified(r.value));
        r := Apply(request, r.value);
      }
    }

    /** Records why Jev's first answer was no good, and that the fallback is asked. */
    method FallBack(f: Failure) returns (ok: bool, ghost why: string)
      requires Valid() && EvidenceOk(f)
      modifies journal, journal.store, journal.blame
      ensures Valid() && SameCounts(Log(), old(Log()))
      ensures Log() == if ok then old(Log()) + Excuse(f, why) else old(Log())
      ensures !ok ==> Internal in journal.blame.causes
    {
      var reason: string := *;
      why := reason;
      QuietStaysOpen(Log(), Excuse(f, reason), terms);
      if f.evidence.Some? {
        Regroup(Log(), [f.evidence.value], [JevFallback(reason)]);
        ok := journal.RecordBoth(f.evidence.value, JevFallback(reason));
      } else {
        assert Excuse(f, reason) == [JevFallback(reason)];
        ok := journal.Record(JevFallback(reason));
      }
    }

    /** Records the classification and the changes it makes, in one transaction. */
    method Apply(request: Request, c: Classification) returns (r: Result<Classification, Failure>)
      requires Valid() && AskedFor(Log()) == Some(request) && Classified(Log()).None? && Projection.ValidClassification(request, c)
      modifies journal, journal.store, journal.blame
      ensures Valid() && FailsOk(r)
      ensures r.Err? ==> Log() == old(Log()) && r.error.code == Internal
      ensures r.Ok? ==> r.value == c && SameCounts(Log(), old(Log()) + [JevClassified(c)])
    {
      AskedForWasRequested(Log());
      ghost var before := Log();
      var ok; ghost var moves;
      ok, moves := journal.Classify(request, c);
      if !ok { return Internally(); }
      MovesQuiet(moves);
      HeadThenQuiet(before, JevClassified(c), moves, terms);
      return Ok(c);
    }

    /** One classification attempt: cancelled, late, failed, rejected, or accepted as valid. */
    method AskJev(request: Request, attempt: nat) returns (r: Result<Classification, Failure>)
      modifies journal.blame
      ensures FailsOk(r)
      ensures r.Ok? ==> world.jev(attempt) == Some(r.value) && Projection.ValidClassification(request, r.value)
      ensures r.Err? && r.error.code != Cancelled ==>
        !(world.jev(attempt).Some? && Projection.ValidClassification(request, world.jev(attempt).value))
        && r.error.code == if world.jev(attempt).Some? then JevInvalidOutput else JevFailed
    {
      var stop := journal.blame.Await();
      if stop { return Err(Failure(Cancelled, None)); }
      var output := world.jev(attempt);
      if output.None? {
        journal.blame.Add(JevFailed);
        return Err(Failure(JevFailed, None));
      }
      var validated := Projection.ValidateClassification(request, output.value);
      if validated.Err? {
        var reason: string := *;
        journal.blame.Add(JevInvalidOutput);
        return Err(Failure(JevInvalidOutput, Some(JevRejected(reason))));
      }
      return Ok(output.value);
    }

    // ---- Recall ----

    /** Expands the context if the message asks for everything, and recalls earlier turns. */
    method Recall() returns (r: Result<seq<Turns.Scored>, Failure>, ghost now: Database.Db)
      requires Valid()
      modifies journal, journal.store, journal.blame
      ensures Valid() && SameCounts(Log(), old(Log())) && FailsOk(r)
      ensures r.Ok? ==>
        if world.everything then exists moves :: Changes(moves) && Log() == old(Log()) + ([ContextExpanded] + moves) else Log() == old(Log())
      ensures r.Ok? ==> History(now, journal.run) == History(journal.begun, journal.run) + Log()
      ensures r.Ok? ==> RecalledFrom(now, journal.run, conversationWindow, text, world, r.value)
    {
      now := journal.store.State();
      var stop := journal.blame.Await();
      if stop { return Err(Failure(Cancelled, None)), now; }
      if world.everything {
        var ok := Expand();
        if !ok { return Internally(), now; }
      }
      r, now := Gather();
    }

    /** The turns recalled: all of them if everything is asked for, otherwise those Jev judges relevant, and
        none if it judges nothing. */
    method Gather() returns (r: Result<seq<Turns.Scored>, Failure>, ghost now: Database.Db)
      requires Valid()
      modifies journal, journal.store, journal.blame
      ensures Valid() && Log() == old(Log()) && FailsOk(r)
      ensures r.Ok? ==> History(now, journal.run) == History(journal.begun, journal.run) + Log()
      ensures r.Ok? ==> RecalledFrom(now, journal.run, conversationWindow, text, world, r.value)
    {
      journal.Others();
      now := journal.store.State();
      ToldSoFar(now, journal.account);
      var candidates := Turns.RecallCandidates(journal.store.State(), journal.run, conversationWindow, text);
      assert candidates.Ok?;
      var stop := journal.blame.Await();
      if stop { return Err(Failure(Cancelled, None)), now; }
      ChosenIs(now, journal.run, conversationWindow, text, world);
      return Ok(Chosen(candidates.value, world.everything, world.scores)), now;
    }

    method Expand() returns (ok: bool)
      requires Valid()
      modifies journal, journal.store, journal.blame
      ensures Valid() && SameCounts(Log(), old(Log()))
      ensures !ok ==> Log() == old(Log()) && Internal in journal.blame.causes
      ensures ok ==> exists moves :: Changes(moves) && Log() == old(Log()) + ([ContextExpanded] + moves)
    {
      ghost var moves;
      ok, moves := journal.Expand();
      if ok {
        MovesQuiet(moves);
        QuietStaysOpen(old(Log()), [ContextExpanded] + moves, terms);
      }
    }

    // ---- Inference ----

    /** What the run is executed with, once it is known what was classified and recalled. */
    ghost function CaseOf(c: Classification, recalled: seq<Turns.Scored>): Case {
      Case(journal.run, journal.task, History(journal.begun, journal.run), terms, has, conversationWindow, size, bytes, journal.note, world,
           c, recalled)
    }

    /** Compiles the step's IR, fits it and records it. */
    method CompileIr(c: Classification, ghost recalled: seq<Turns.Scored>, step: Fitting.StepInput) returns (r: Result<Ir, Failure>)
      requires Valid() && Classified(Log()) == Some(c)
      modifies journal, journal.store, journal.blame
      ensures Valid() && FailsOk(r)
      ensures Log() == if r.Ok? then old(Log()) + [IrCompiled(r.value)] else old(Log())
      ensures r.Ok? ==> CompiledFrom(CaseOf(c, recalled), old(Log()), step, r.value)
    {
      var stop := journal.blame.Await();
      if stop { return Err(Failure(Cancelled, None)); }
      var valid: bool := *;
      if !valid {
        journal.blame.Add(IrInvalid);
        return Err(Failure(IrInvalid, None));
      }
      var tools := Exposed(terms.tools, c.tools);
      var compiled; ghost var now, ps;
      compiled, now, ps := journal.CompileIr(tools, step, conversationWindow, size, bytes);
      if compiled.Err? { return Internally(); }
      CompiledIs(CaseOf(c, recalled), old(Log()), step, compiled.value, now, ps);
      StaysOpen(old(Log()), IrCompiled(compiled.value), terms);
      return Ok(compiled.value);
    }

    /** Calls the provider and records each piece of text it streams; after one could not be recorded, none
        is, and the call fails. */
    method Infer(turn: nat) returns (r: Result<string, Failure>, ghost told: seq<string>)
      requires Valid() && Log() != [] && Log()[|Log()| - 1].IrCompiled?
      modifies journal, journal.store, journal.blame
      ensures Valid() && FailsOk(r)
      ensures r.Ok? ==> told == world.provider(turn).texts && world.provider(turn).raw == Some(r.value)
      ensures r.Ok? ==> Log() == old(Log()) + [InferenceStarted] + Deltas(told) + [InferenceCompleted(r.value)]
      ensures r.Err? ==> Log() == old(Log()) || Log() == old(Log()) + [InferenceStarted] + Deltas(told)
      ensures r.Err? && world.provider(turn).raw.Some? ==> r.error.code == Cancelled || r.error.code == Internal
    {
      told := [];
      var ok := Record(InferenceStarted);
      if !ok { return Internally(), told; }
      var failure: Option<Failure>;
      failure, told := Stream(world.provider(turn));
      if failure.Some? { return Err(failure.value), told; }
      var raw := world.provider(turn).raw.value;
      ok := Record(InferenceCompleted(raw));
      return if ok then Ok(raw) else Internally(), told;
    }

    method Stream(inference: Inference) returns (failure: Option<Failure>, ghost told: seq<string>)
      requires Valid()
      modifies journal, journal.store, journal.blame
      ensures Valid() && Log() == old(Log()) + Deltas(told) && (failure.Some? ==> EvidenceOk(failure.value) && failure.value.code in journal.blame.causes)
      ensures failure.None? ==> told == inference.texts && inference.raw.Some?
      ensures failure.Some? && inference.raw.Some? ==> failure.value.code == Cancelled || failure.value.code == Internal
    {
      var failed := false;
      told := [];
      assert Log() + Deltas([]) == Log();
      for k := 0 to |inference.texts|
        invariant Valid() && Log() == old(Log()) + Deltas(told)
        invariant if failed then Internal in journal.blame.causes else told == inference.texts[..k]
      {
        var stop := journal.blame.Await();
        if stop { return Some(Failure(Cancelled, None)), told; }
        if !failed {
          DeltaNext(old(Log()), told, inference.texts[k]);
          PrefixNext(inference.texts, k);
          var ok := Record(InferenceDelta(inference.texts[k]));
          if ok { told := told + [inference.texts[k]]; }
          failed := !ok;
        }
      }
      assert inference.texts[..|inference.texts|] == inference.texts;
      if failed { return Some(Failure(Internal, None)), told; }
      if inference.raw.Some? { return None, told; }
      journal.blame.Add(if inference.late then ProviderTimeout else ProviderFailed);
      failure := Some(Failure(if inference.late then ProviderTimeout else ProviderFailed, None));
    }

    /** Validates the reply against the IR it answers and applies it in one transaction: recorded with
        everything it creates, or refused and then nothing of it is recorded. */
    method ApplyResponse(ir: Ir, raw: string) returns (r: Result<Response, Failure>, ghost ids: seq<nat>)
      requires Valid() && Log() != [] && Log()[|Log()| - 1].InferenceCompleted? && Shown(Log()) == Some(ir)
      modifies journal, journal.store, journal.blame
      ensures Valid() && FailsOk(r)
      ensures r.Err? ==> Log() == old(Log()) && (r.error.code == ResponseInvalid <==> !Responses.ValidResponse(world.reply(raw), ir))
      ensures r.Ok? ==> r.value == world.reply(raw)
      ensures r.Ok? ==> Responses.ValidResponse(r.value, ir) && |ids| == |r.value.emissions|
      ensures r.Ok? ==> Database.EndpointsResolve(Database.RefsOf(r.value.emissions), r.value.emissions)
                        && Log() == old(Log()) + ReplyEvents(r.value, ids)
      ensures r.Ok? ==> SameCounts(Log(), old(Log()) + [ResponseValidated(r.value)])
    {
      ids := [];
      var response := world.reply(raw);
      var reason: string := *;
      var validated := Responses.ValidateResponse(response, ir);
      if validated.Err? {
        journal.blame.Add(ResponseInvalid);
        return Err(Failure(ResponseInvalid, Some(ResponseRejected(reason)))), ids;
      }
      var drawn: seq<nat> := *;
      var now: Instant := *;
      ShownWasCompiled(Log());
      ids := Drawn(drawn, |response.emissions|, 0);
      var applied; ghost var held;
      applied, held := journal.Respond(ir, response, Drawn(drawn, |response.emissions|, 0), now);
      if applied.Ok? {
        ReplySound(old(Log()), response, ids, terms);
        return Ok(response), ids;
      }
      r := if applied.error.Some? && IsViolation(applied.error.value) then Err(Failure(EmissionRejected, Some(ResponseRejected(reason))))
           else Internally();
    }

    // ---- Tool calls ----

    function Available(ir: Ir): set<string> { Runnable(has.runner, ir) }

    /** The gate is asked only while rounds are left and about tools the IR lists. */
    method AskGate(ir: Ir, call: CallId, name: string, overLimit: bool) returns (r: Result<Decision, Failure>)
      modifies journal.blame
      ensures FailsOk(r) && (r.Ok? ==> r.value == Ruling(world, call, overLimit, name in Available(ir)))
    {
      if overLimit { return Ok(Deny(ByLimit, "limit")); }
      if !has.runner || name !in ir.tools { return Ok(Deny(ByUnavailable, "unavailable")); }
      var stop := journal.blame.Await();
      if stop { return Err(Failure(Cancelled, None)); }
      return Ok(world.gate(call));
    }

    /** Records the call, has it decided, runs it if that allows it, and records what came of it. */
    method RunTool(ir: Ir, call: CallId, name: string, arguments: string, overLimit: bool) returns (r: Result<(), Failure>)
      requires Valid() && Offered(Log()) == ir.tools && (overLimit || Rounds(Log()) <= terms.toolRounds)
      requires call == |Requested(Log())| + 1
      modifies journal, journal.store, journal.blame
      ensures Valid() && FailsOk(r)
      ensures SameRounds(Log(), old(Log())) && (r.Ok? ==> |Requested(Log())| == call)
      ensures r.Ok? ==> Handled(world, old(Log()), Log(), call, name, arguments, overLimit, name in Available(ir))
    {
      ghost var before := Log();
      var ok := RequestCall(call, name, arguments);
      if !ok { return Internally(); }
      LastIs(before, ToolRequested(call, name, arguments));
      r := Process(ir, call, name, overLimit);
      EventsAssociate(before, [ToolRequested(call, name, arguments)],
                      Consequence(world, call, Ruling(world, call, overLimit, name in Available(ir))));
    }

    /** Has the call just asked for decided, and carries the decision out. */
    method Process(ir: Ir, call: CallId, name: string, overLimit: bool) returns (r: Result<(), Failure>)
      requires Valid() && Offered(Log()) == ir.tools && (overLimit || Rounds(Log()) <= terms.toolRounds)
      requires Log() != [] && Log()[|Log()| - 1].ToolRequested? && Log()[|Log()| - 1].call == call && Log()[|Log()| - 1].name == name
      modifies journal, journal.store, journal.blame
      ensures Valid() && FailsOk(r) && SameTools(Log(), old(Log()))
      ensures r.Ok? ==> Log() == old(Log()) + Consequence(world, call, Ruling(world, call, overLimit, name in Available(ir)))
    {
      var asked := AskGate(ir, call, name, overLimit);
      if asked.Err? { return Err(asked.error); }
      r := Follow(call, asked.value);
    }

    /** Records what was decided of the call just asked for, and, if it is allowed, runs it. */
    method Follow(call: CallId, decision: Decision) returns (r: Result<(), Failure>)
      requires Valid() && Log() != [] && Log()[|Log()| - 1].ToolRequested? && Log()[|Log()| - 1].call == call
      requires decision.Allow? ==> Rounds(Log()) <= terms.toolRounds && Log()[|Log()| - 1].name in Offered(Log())
      modifies journal, journal.store, journal.blame
      ensures Valid() && FailsOk(r) && SameTools(Log(), old(Log()))
      ensures r.Ok? ==> Log() == old(Log()) + Consequence(world, call, decision)
    {
      var ok := DecideCall(call, decision);
      if !ok { return Internally(); }
      if decision.Deny? { return Ok(()); }
      LastIs(old(Log()), Decided(call, decision));
      r := ExecuteCall(call);
      TwoEvents(old(Log()), Decided(call, decision), ToolCompleted(call, world.tool(call).output, world.tool(call).isError));
    }

    method RequestCall(call: CallId, name: string, arguments: string) returns (ok: bool)
      requires Valid() && call == |Requested(Log())| + 1
      modifies journal, journal.store, journal.blame
      ensures Valid() && SameRounds(Log(), old(Log()))
      ensures Log() == if ok then old(Log()) + [ToolRequested(call, name, arguments)] else old(Log())
      ensures !ok ==> Internal in journal.blame.causes
      ensures ok ==> |Requested(Log())| == call
    {
      CallsNumbered(Log(), terms);
      RecordStep(Log(), ToolRequested(call, name, arguments));
      ok := Record(ToolRequested(call, name, arguments));
    }

    method DecideCall(call: CallId, decision: Decision) returns (ok: bool)
      requires Valid() && Log() != [] && Log()[|Log()| - 1].ToolRequested? && Log()[|Log()| - 1].call == call
      requires decision.Allow? ==> Rounds(Log()) <= terms.toolRounds && Log()[|Log()| - 1].name in Offered(Log())
      modifies journal, journal.store, journal.blame
      ensures Valid() && SameTools(Log(), old(Log()))
      ensures Log() == if ok then old(Log()) + [Decided(call, decision)] else old(Log())
      ensures !ok ==> Internal in journal.blame.causes
    {
      RequestedLast(Log(), terms);
      RecordStep(Log(), Decided(call, decision));
      ok := Record(Decided(call, decision));
    }

    /** Runs an allowed call and records its output, an error or a timeout being an output too. */
    method ExecuteCall(call: CallId) returns (r: Result<(), Failure>)
      requires Valid() && Rounds(Log()) <= terms.toolRounds
      requires Log() != [] && Log()[|Log()| - 1].ToolDecided? && Log()[|Log()| - 1].call == call && Log()[|Log()| - 1].allowed
      modifies journal, journal.store, journal.blame
      ensures Valid() && FailsOk(r) && SameTools(Log(), old(Log()))
      ensures Log() == if r.Ok? then old(Log()) + [ToolCompleted(call, world.tool(call).output, world.tool(call).isError)] else old(Log())
    {
      LastDecided(Log(), terms);
      var stop := journal.blame.Await();
      if stop { return Err(Failure(Cancelled, None)); }
      var given := world.tool(call);
      RecordStep(Log(), ToolCompleted(call, given.output, given.isError));
      var ok := Record(ToolCompleted(call, given.output, given.isError));
      return if ok then Ok(()) else Internally();
    }

    /** The next of a round's calls. */
    method RunNext(ir: Ir, calls: seq<ToolCall>, k: nat, first: CallId, overLimit: bool, ghost start: seq<EventData>)
      returns (r: Result<(), Failure>)
      requires Valid() && Offered(Log()) == ir.tools && (overLimit || Rounds(Log()) <= terms.toolRounds)
      requires k < |calls| && first + k == |Requested(Log())| + 1
      requires HandledAll(world, start, Log(), first, calls[..k], overLimit, Available(ir))
      modifies journal, journal.store, journal.blame
      ensures Valid() && FailsOk(r) && SameRounds(Log(), old(Log()))
      ensures r.Ok? ==> |Requested(Log())| == first + k && HandledAll(world, start, Log(), first, calls[..k + 1], overLimit, Available(ir))
    {
      r := RunTool(ir, first + k, calls[k].name, calls[k].arguments, overLimit);
      if r.Ok? {
        HandledNext(world, start, old(Log()), Log(), first, calls, k, overLimit, Available(ir));
      }
    }

    /** A round's calls, one after another: each is handled, in order, before the next. */
    method RunTools(ir: Ir, calls: seq<ToolCall>, first: CallId, overLimit: bool) returns (r: Result<(), Failure>)
      requires Valid() && Offered(Log()) == ir.tools && (overLimit || Rounds(Log()) <= terms.toolRounds)
      requires first == |Requested(Log())| + 1
      modifies journal, journal.store, journal.blame
      ensures Valid() && FailsOk(r) && SameRounds(Log(), old(Log()))
      ensures r.Ok? ==> |Requested(Log())| + 1 == first + |calls|
      ensures r.Ok? ==> HandledAll(world, old(Log()), Log(), first, calls, overLimit, Available(ir))
    {
      ghost var start := Log();
      assert calls[..0] == [] && calls[..|calls|] == calls;
      for k := 0 to |calls|
        invariant Valid() && first + k == |Requested(Log())| + 1
        invariant SameRounds(Log(), start) && HandledAll(world, start, Log(), first, calls[..k], overLimit, Available(ir))
      {
        r := RunNext(ir, calls, k, first, overLimit, start);
        if r.Err? { return; }
      }
      return Ok(());
    }

    // ---- Reviews ----

    /** Has what the run changed reviewed, after a reply without tool calls. It is handed back to the model exactly
        when it found something, the code is not what the previous review handed back, and reviews are left;
        findings it is not given are remembered. */
    method Review(turn: nat, ghost k: Case, ghost st: Standing) returns (r: Result<Option<Records.Review>, Failure>)
      requires Valid() && reviewed == Reviews(Log()) == st.reviews && OwnCase(k) && turn == Turn(st)
      modifies this, journal, journal.store, journal.blame
      ensures Valid() && FailsOk(r) && SameButReviews(Log(), old(Log()))
      ensures r.Ok? && Heard(k, st).None? ==> r.value.None? && Log() == old(Log()) && reviewed == old(reviewed)
      ensures r.Ok? && Heard(k, st).Some? ==> reviewed == old(reviewed) + 1 == Reviews(Log()) <= terms.reviews
      ensures r.Ok? && Heard(k, st).Some? ==>
        ReviewedAs(k.run, k.opening, old(Log()), Log(), reviewed, Heard(k, st).value, world.reviewer(turn).error, r.value.Some?)
      ensures r.Ok? && Heard(k, st).Some? ==> (r.value.Some? <==> MustAddress(Heard(k, st).value, old(fingerprint), reviewed, terms))
      ensures r.Ok? && r.value.Some? ==>
        Heard(k, st).Some? && r.value == Some(Records.Review(reviewed, terms.reviews, Heard(k, st).value.findings))
        && fingerprint == Some(Heard(k, st).value.fingerprint)
    {
      if !has.reviewer || reviewed >= terms.reviews { return Ok(None); }
      var stop := journal.blame.Await();
      if stop { return Err(Failure(Cancelled, None)); }
      var answer := world.reviewer(turn);
      var review := if answer.error.Some? then Reviewed(0, [], "") else answer.review;
      if review.judged == 0 && answer.error.None? { return Ok(None); }
      r := Take(review, answer.error);
    }

    /** What a review recorded in this run leaves. */
    ghost predicate Leaves(before: seq<EventData>, after: seq<EventData>, round: nat, seen: Reviewed, error: Option<string>, handedBack: bool) {
      ReviewedAs(journal.run, History(journal.begun, journal.run), before, after, round, seen, error, handedBack)
    }

    /** The case is this run's. */
    ghost predicate OwnCase(k: Case) {
      k.run == journal.run && k.opening == History(journal.begun, journal.run) && k.terms == terms && k.has == has && k.world == world
    }

    /** Records a review, and hands it back or has its findings remembered. */
    method Take(review: Reviewed, error: Option<string>) returns (r: Result<Option<Records.Review>, Failure>)
      requires Valid() && reviewed == Reviews(Log()) < terms.reviews
      modifies this, journal, journal.store, journal.blame
      ensures Valid() && FailsOk(r) && SameButReviews(Log(), old(Log()))
      ensures r.Ok? ==> reviewed == old(reviewed) + 1 == Reviews(Log())
      ensures r.Ok? ==> Leaves(old(Log()), Log(), reviewed, review, error, r.value.Some?)
      ensures r.Ok? ==> (r.value.Some? <==> MustAddress(review, old(fingerprint), reviewed, terms))
      ensures r.Ok? && r.value.Some? ==>
        r.value == Some(Records.Review(reviewed, terms.reviews, review.findings)) && fingerprint == Some(review.fingerprint)
    {
      reviewed := reviewed + 1;
      var ok := RecordReview(review, error);
      if !ok { return Internally(); }
      r := Settle(review, error, old(Log()));
    }

    /** Hands a recorded review back, or has its findings remembered. */
    method Settle(review: Reviewed, ghost error: Option<string>, ghost before: seq<EventData>) returns (r: Result<Option<Records.Review>, Failure>)
      requires Valid() && Log() == before + [ReviewCompleted(reviewed, review.findings, error)]
      modifies `fingerprint, journal, journal.store, journal.blame
      ensures Valid() && FailsOk(r) && SameCounts(Log(), old(Log()))
      ensures r.Ok? ==> Leaves(before, Log(), reviewed, review, error, r.value.Some?)
      ensures r.Ok? ==> (r.value.Some? <==> MustAddress(review, old(fingerprint), reviewed, terms))
      ensures r.Ok? && r.value.Some? ==>
        r.value == Some(Records.Review(reviewed, terms.reviews, review.findings)) && fingerprint == Some(review.fingerprint)
    {
      if review.findings == [] {
        LeavesRecord(journal.run, History(journal.begun, journal.run), before, reviewed, review, error, false);
        return Ok(None);
      }
      if fingerprint == Some(review.fingerprint) || reviewed >= terms.reviews {
        var ok := KeepFindings(review, error, before);
        return if ok then Ok(None) else Internally();
      }
      fingerprint := Some(review.fingerprint);
      LeavesRecord(journal.run, History(journal.begun, journal.run), before, reviewed, review, error, true);
      return Ok(Some(Records.Review(reviewed, terms.reviews, review.findings)));
    }

    /** Has the findings of a recorded review remembered. */
    method KeepFindings(review: Reviewed, ghost error: Option<string>, ghost before: seq<EventData>) returns (ok: bool)
      requires Valid() && Log() == before + [ReviewCompleted(reviewed, review.findings, error)] && review.findings != []
      modifies journal, journal.store, journal.blame
      ensures Valid() && SameCounts(Log(), old(Log()))
      ensures ok ==> Leaves(before, Log(), reviewed, review, error, false)
      ensures !ok ==> Internal in journal.blame.causes
    {
      ghost var more;
      ok, more := Remember(review.findings);
      if ok {
        LeavesNodes(journal.run, History(journal.begun, journal.run), before, old(Log()), reviewed, review, error, more);
      }
    }

    method RecordReview(review: Reviewed, error: Option<string>) returns (ok: bool)
      requires Valid() && reviewed == Reviews(Log()) + 1 && reviewed <= terms.reviews
      modifies journal, journal.store, journal.blame
      ensures Valid() && Log() == if ok then old(Log()) + [ReviewCompleted(reviewed, review.findings, error)] else old(Log())
      ensures !ok ==> Internal in journal.blame.causes
      ensures SameButReviews(Log(), old(Log())) && Reviews(Log()) == if ok then reviewed else old(Reviews(Log()))
    {
      RecordStep(Log(), ReviewCompleted(reviewed, review.findings, error));
      ok := Record(ReviewCompleted(reviewed, review.findings, error));
    }

    /** Remembers findings the run ends with. */
    method Remember(findings: seq<Finding>) returns (ok: bool, ghost more: seq<EventData>)
      requires Valid()
      modifies journal, journal.store, journal.blame
      ensures Valid() && SameCounts(Log(), old(Log())) && Found(more)
      ensures Log() == if ok then old(Log()) + more else old(Log())
      ensures ok ==> Remembering(journal.run, History(journal.begun, journal.run), old(Log()), findings, more)
      ensures !ok ==> Internal in journal.blame.causes
    {
      var drawn: seq<nat> := *;
      var names: seq<string> := *;
      var now: Instant := *;
      var ids, refs := Drawn(drawn, |findings|, 0), Drawn(names, |findings|, "");
      ghost var held;
      ok, more, held := journal.Remember(findings, ids, refs, now);
      if ok {
        RememberingIs(journal.run, History(journal.begun, journal.run), old(Log()), findings, more, held, ids, refs);
        FoundQuiet(more);
        QuietStaysOpen(old(Log()), more, terms);
      }
    }

    // ---- The whole run ----

    /** One step: compile the IR, infer, and apply the reply. */
    method Step(c: Classification, ghost recalled: seq<Turns.Scored>, step: Fitting.StepInput, turn: nat, ghost st: Standing)
      returns (r: Result<(Ir, Response), Failure>, ghost x: Exchange)
      requires Valid() && Classified(Log()) == Some(c) && turn == Turn(st) && Takes(CaseOf(c, recalled), st, step)
      modifies journal, journal.store, journal.blame
      ensures Valid() && FailsOk(r) && Inferences(Log()) <= old(Inferences(Log())) + 1
      ensures r.Err? ==> Rounds(Log()) == old(Rounds(Log()))
      ensures r.Ok? ==> Inferences(Log()) == old(Inferences(Log())) + 1 && Reviews(Log()) == old(Reviews(Log()))
      ensures r.Ok? ==> Offered(Log()) == r.value.0.tools && Requested(Log()) == old(Requested(Log())) && Classified(Log()) == Some(c)
      ensures r.Ok? ==> Rounds(Log()) == old(Rounds(Log())) + if r.value.1.toolCalls != [] then 1 else 0
      ensures r.Ok? ==> Replying(CaseOf(c, recalled), old(Log()), st, x) && x.applied == Log() && x.seen.None? && r.value == (x.ir, x.response)
    {
      x := *;
      var compiled := CompileIr(c, recalled, step);
      if compiled.Err? { return Err(compiled.error), x; }
      var ir := compiled.value;
      RecordStep(old(Log()), IrCompiled(ir));
      LastIs(old(Log()), IrCompiled(ir));
      var raw; ghost var told;
      ghost var before := Log();
      raw, told := Infer(turn);
      InferredCounts(before, told, terms);
      if raw.Err? { return Err(raw.error), x; }
      RecordStep(before + [InferenceStarted] + Deltas(told), InferenceCompleted(raw.value));
      LastIs(before + [InferenceStarted] + Deltas(told), InferenceCompleted(raw.value));
      ghost var inferred := Log();
      var applied; ghost var ids;
      applied, ids := ApplyResponse(ir, raw.value);
      if applied.Err? { return Err(applied.error), x; }
      RecordStep(inferred, ResponseValidated(applied.value));
      x := Exchange(step, ir, told, raw.value, applied.value, ids, Log(), None);
      RepliedIs(CaseOf(c, recalled), old(Log()), x);
      ReplyingIs(CaseOf(c, recalled), old(Log()), st, x);
      return Ok((ir, applied.value)), x;
    }

    /** The pipeline. However it ends, it has made at most `T + max(R, 1)` inferences and begun at most
        `T + 1` tool rounds, and what it recorded is sound; it ends well exactly when it completes the
        run, after its last exchange needed no other. */
    method Execute() returns (r: Result<(), Failure>, ghost course: Course)
      requires Valid() && Log() == [] && reviewed == 0 && fingerprint == None
      modifies this, journal, journal.store, journal.blame
      ensures journal.Valid() && Sound(Log(), terms) && FailsOk(r)
      ensures Inferences(Log()) <= terms.toolRounds + Max(terms.reviews, 1) && Rounds(Log()) <= terms.toolRounds + 1
      ensures r.Ok? ==> Log() != [] && Log()[|Log()| - 1] == RunCompleted && Runs(course, text, Log()[..|Log()| - 1])
      ensures r.Ok? ==> course.k == CaseOf(course.k.classification, course.k.recalled)
      ensures r.Err? ==> Valid()
    {
      course := *;
      var prepared := Prepare();
      if prepared.Err? { return Err(prepared.error), course; }
      r, course := Converse(prepared.value.0, prepared.value.1);
      if r.Ok? {
        ghost var done := Log();
        r := Complete();
        assert r.Ok? ==> Log()[..|Log()| - 1] == done;
      }
    }

    /** What precedes the first exchange: the context is classified, and earlier turns are recalled. */
    method Prepare() returns (r: Result<(Classification, seq<Turns.Scored>), Failure>)
      requires Valid() && Log() == []
      modifies journal, journal.store, journal.blame
      ensures Valid() && FailsOk(r) && Unstarted(Log())
      ensures r.Ok? ==> Classified(Log()) == Some(r.value.0) && Prepared(CaseOf(r.value.0, r.value.1), Log(), text)
    {
      var classified := ClassifyContext();
      if classified.Err? { return Err(classified.error); }
      var recalled; ghost var now;
      ghost var before := Log();
      recalled, now := Recall();
      if recalled.Err? { return Err(recalled.error); }
      if world.everything { ExpandedTold(before, Log()); }
      PreparedIs(CaseOf(classified.value, recalled.value), Log(), text, now);
      return Ok((classified.value, recalled.value));
    }

    /** Where the loop stands: how many rounds were begun, and the number the next call gets. */
    ghost predicate At(c: Classification, rounds: nat, nextCall: CallId) reads this, journal, journal.store {
      Valid() && Classified(Log()) == Some(c) && reviewed == Reviews(Log()) < Max(terms.reviews, 1)
      && rounds == Rounds(Log()) <= terms.toolRounds && Inferences(Log()) == rounds + reviewed && nextCall == |Requested(Log())| + 1
    }

    /** A reply without tool calls is reviewed. */
    method HearReview(turn: nat, ghost k: Case, ghost before: seq<EventData>, ghost st: Standing, ghost given: Exchange)
      returns (r: Result<Next, Failure>, ghost x: Exchange)
      requires Valid() && reviewed == Reviews(Log()) == st.reviews && fingerprint == st.fingerprint && OwnCase(k) && turn == Turn(st)
      requires Replying(k, before, st, given)
      requires given.applied == Log() && given.response.toolCalls == []
      modifies this, journal, journal.store, journal.blame
      ensures Valid() && FailsOk(r) && SameButReviews(Log(), old(Log()))
      ensures r.Ok? ==> !r.value.Working? && (r.value.Reviewing? ==> reviewed == old(reviewed) + 1 == Reviews(Log()) < terms.reviews)
      ensures r.Ok? ==> Proceeds(k, before, Log(), st, x, r.value, Stands(st, r.value, fingerprint))
    {
      var next := Review(turn, k, st);
      x := given.(seen := Heard(k, st));
      if next.Err? { return Err(next.error), x; }
      ReviewProceeds(k, before, st, given, Heard(k, st), Log(), next.value, fingerprint);
      return Ok(if next.value.Some? then Reviewing(next.value.value) else Finished), x;
    }

    /** The calls of a reply are handled. */
    method RunRound(ghost k: Case, ghost before: seq<EventData>, ghost st: Standing, ghost x: Exchange, ir: Ir, calls: seq<ToolCall>,
                    rounds: nat, nextCall: CallId)
      returns (r: Result<Next, Failure>)
      requires Valid() && Offered(Log()) == ir.tools && rounds + 1 == Rounds(Log()) && nextCall == |Requested(Log())| + 1
      requires OwnCase(k) && st.rounds == rounds && st.nextCall == nextCall
      requires Replying(k, before, st, x) && x.applied == Log() && x.seen.None?
      requires x.ir == ir && x.response.toolCalls == calls != []
      modifies journal, journal.store, journal.blame
      ensures Valid() && FailsOk(r) && SameRounds(Log(), old(Log()))
      ensures r.Ok? ==> !r.value.Reviewing?
      ensures r.Ok? && r.value.Working? ==>
        r.value.calls == |calls| && rounds + 1 <= terms.toolRounds && |Requested(Log())| + 1 == nextCall + |calls|
      ensures r.Ok? ==> Proceeds(k, before, Log(), st, x, r.value, Stands(st, r.value, st.fingerprint))
    {
      var overLimit := rounds + 1 > terms.toolRounds;
      var ran := RunTools(ir, calls, nextCall, overLimit);
      if ran.Err? { return Err(ran.error); }
      RoundProceeds(k, before, st, x, Log(), st.fingerprint);
      return Ok(if overLimit then Finished else Working(|calls|));
    }

    /** What the next step takes. */
    method NextStep(recalled: seq<Turns.Scored>, rounds: nat, turn: nat, latestRound: set<CallId>, review: Option<Records.Review>, ghost k: Case,
                    ghost st: Standing) returns (step: Fitting.StepInput)
      requires k.world == world && k.recalled == recalled
      requires st.rounds == rounds && Turn(st) == turn && st.latestRound == latestRound && st.review == review
      ensures Takes(k, st, step)
    {
      var omitted := if rounds > 0 then world.irrelevant(turn) - latestRound else {};
      step := Fitting.StepInput(recalled, omitted, latestRound, review, world.budget);
    }

    /** One turn of the loop: a step, and then its calls, or a review. */
    method Proceed(c: Classification, recalled: seq<Turns.Scored>, rounds: nat, nextCall: CallId, latestRound: set<CallId>,
                   review: Option<Records.Review>, ghost st: Standing)
      returns (r: Result<Next, Failure>, ghost x: Exchange)
      requires At(c, rounds, nextCall) && st.review == review && st.latestRound == latestRound
      requires st.rounds == rounds && st.nextCall == nextCall && st.reviews == reviewed && st.fingerprint == fingerprint
      modifies this, journal, journal.store, journal.blame
      ensures Valid() && FailsOk(r)
      ensures Inferences(Log()) <= terms.toolRounds + Max(terms.reviews, 1) && Rounds(Log()) <= terms.toolRounds + 1
      ensures r.Ok? && r.value.Reviewing? ==> At(c, rounds, nextCall) && reviewed == old(reviewed) + 1
      ensures r.Ok? && r.value.Working? ==> At(c, rounds + 1, nextCall + r.value.calls) && reviewed == old(reviewed) && fingerprint == old(fingerprint)
      ensures r.Ok? ==> Proceeds(CaseOf(c, recalled), old(Log()), Log(), st, x, r.value, Stands(st, r.value, fingerprint))
    {
      var step := NextStep(recalled, rounds, rounds + reviewed, latestRound, review, CaseOf(c, recalled), st);
      var stepped;
      stepped, x := Step(c, recalled, step, rounds + reviewed, st);
      if stepped.Err? { return Err(stepped.error), x; }
      var (ir, response) := stepped.value;
      if response.toolCalls == [] {
        r, x := HearReview(rounds + reviewed, CaseOf(c, recalled), old(Log()), st, x);
      } else {
        r := RunRound(CaseOf(c, recalled), old(Log()), st, x, ir, response.toolCalls, rounds, nextCall);
      }
    }

    /** Step after step, until a reply asks for no tools and needs no answer to a review, or rounds run out. */
    method Converse(c: Classification, recalled: seq<Turns.Scored>)
      returns (r: Result<(), Failure>, ghost course: Course)
      requires Prepared(CaseOf(c, recalled), Log(), text)
      requires Valid() && Classified(Log()) == Some(c) && Unstarted(Log()) && reviewed == 0 && fingerprint == None
      modifies this, journal, journal.store, journal.blame
      ensures Valid() && FailsOk(r)
      ensures Inferences(Log()) <= terms.toolRounds + Max(terms.reviews, 1) && Rounds(Log()) <= terms.toolRounds + 1
      ensures r.Ok? ==> Runs(course, text, Log()) && course.k == CaseOf(c, recalled)
    {
      var rounds, nextCall: nat := 0, 1;
      var review: Option<Records.Review> := None;
      var latestRound: set<CallId> := {};
      course := Course(CaseOf(c, recalled), [Log()], []);
      Embarks(course.k, Log(), text);
      ghost var st := BEGINNING;
      while true
        invariant At(c, rounds, nextCall) && course.k == CaseOf(c, recalled) && OnCourse(course, text, st, Log())
        invariant st.rounds == rounds && st.nextCall == nextCall && st.reviews == reviewed && st.fingerprint == fingerprint
        invariant st.review == review && st.latestRound == latestRound
        decreases terms.toolRounds - rounds + Max(terms.reviews, 1) - reviewed
      {
        ghost var before := Log();
        var next; ghost var x;
        next, x := Proceed(c, recalled, rounds, nextCall, latestRound, review, st);
        if next.Err? { return Err(next.error), course; }
        OneMore(course, text, st, before, Log(), x, next.value, Stands(st, next.value, fingerprint));
        course, st := Extended(course, Log(), x), Stands(st, next.value, fingerprint);
        match next.value {
          case Finished => return Ok(()), course;
          case Reviewing(again) => review := Some(again);
          case Working(calls) =>
            latestRound := CallIds(nextCall, calls);
            rounds, nextCall := rounds + 1, nextCall + calls;
        }
      }
    }

    method Complete() returns (r: Result<(), Failure>)
      requires Valid()
      modifies journal, journal.store, journal.blame
      ensures journal.Valid() && Sound(Log(), terms) && FailsOk(r)
      ensures Inferences(Log()) == old(Inferences(Log())) && Rounds(Log()) == old(Rounds(Log()))
      ensures r.Ok? ==> Log() == old(Log()) + [RunCompleted]
      ensures r.Err? ==> Valid()
    {
      CompletionSound(Log(), terms);
      var ok := journal.Complete();
      return if ok then Ok(()) else Internally();
    }

    /** Records the evidence, if there is any, and the failure, in one transaction. */
    method Fail(f: Failure) returns (ok: bool, ghost message: string)
      requires Valid() && EvidenceOk(f)
      modifies journal, journal.store, journal.blame
      ensures journal.Valid() && Sound(Log(), terms)
      ensures Log() == if ok then old(Log()) + Ending(f.evidence, f.code, message) else old(Log())
      ensures journal.blame.causes == old(journal.blame.causes) + if ok then {} else {Internal}
      ensures !ok ==> Valid()
      ensures Inferences(Log()) == old(Inferences(Log())) && Rounds(Log()) == old(Rounds(Log()))
    {
      var reason: string := *;
      message := reason;
      EndingSound(Log(), f.evidence, f.code, reason, terms);
      ok := journal.Fail(f.evidence, f.code, reason);
    }

    /** A started run's pipeline to its end. Whatever happened, the run has then been completed, or failed with
        the evidence recorded right before the failure, unless the store itself took neither. */
    method FinishRun()
      returns (ok: bool, ghost outcome: Result<(), Failure>, ghost before: seq<EventData>, ghost message: string, ghost course: Course)
      requires Valid() && Log() == [] && reviewed == 0 && fingerprint == None
      modifies this, journal, journal.store, journal.blame
      ensures journal.Valid() && Sound(Log(), terms)
      ensures Inferences(Log()) <= terms.toolRounds + Max(terms.reviews, 1) && Rounds(Log()) <= terms.toolRounds + 1
      ensures ok ==> journal.run in journal.store.runs
      ensures ok && outcome.Ok? ==> Runs(course, text, before) && course.k == CaseOf(course.k.classification, course.k.recalled)
      ensures ok && outcome.Ok? ==> Log() == before + [RunCompleted] && journal.store.runs[journal.run].status == Completed
      ensures ok && outcome.Err? ==>
        Log() == before + Ending(outcome.error.evidence, outcome.error.code, message) && journal.store.runs[journal.run].status == Failed
      ensures outcome.Err? ==> outcome.error.code in journal.blame.causes
      ensures !ok ==> outcome.Err? && Valid() && Internal in journal.blame.causes
    {
      message := "";
      var r;
      r, before, course := Attempt();
      outcome, ok := r, true;
      if r.Err? {
        ok, message := Fail(r.error);
      }
      if ok { StatusTold(journal.store.State(), journal.account); }
    }

    /** Executes the run if its provider is registered. `before` is what it has recorded, but for its completion. */
    method Attempt() returns (r: Result<(), Failure>, ghost before: seq<EventData>, ghost course: Course)
      requires Valid() && Log() == [] && reviewed == 0 && fingerprint == None
      modifies this, journal, journal.store, journal.blame
      ensures journal.Valid() && Sound(Log(), terms) && FailsOk(r)
      ensures Inferences(Log()) <= terms.toolRounds + Max(terms.reviews, 1) && Rounds(Log()) <= terms.toolRounds + 1
      ensures r.Ok? ==> Log() == before + [RunCompleted] && Runs(course, text, before)
      ensures r.Ok? ==> course.k == CaseOf(course.k.classification, course.k.recalled)
      ensures r.Err? ==> Valid() && Log() == before
    {
      course := *;
      var registered: bool := *;
      r := Err(Failure(ProviderFailed, None));
      if registered { r, course := Execute(); } else { journal.blame.Add(ProviderFailed); }
      before := if r.Ok? then Log()[..|Log()| - 1] else Log();
    }
  }

  // ---- What the history of an executed run tells ----

  lemma OpeningHasNoCalls(db: Database.Db, run: RunId)
    requires Invariants.Opened(Database.Log(db.events, run)) && |Database.Log(db.events, run)| == 3
    ensures NoCalls(History(db, run))
  {
  }

  /** At any point of its execution, a run's whole history keeps the call protocol: IR's tool results are its
      calls, numbered from 1 without a gap, each once and in order, whatever outputs are left out. */
  lemma ResultsTellCalls(db: Database.Db, a: Account, terms: Terms, omitted: set<CallId>, note: string -> string)
    requires Kept(db, a) && Sound(a.log, terms) && NoCalls(a.opening)
    ensures Proper(History(db, a.run))
    ensures var ids := ResultCalls(Results(History(db, a.run), omitted, note));
      ids == Requested(a.log) && forall i | 0 <= i < |ids| :: ids[i] == i + 1
  {
    TiedIs(db, a);
    SoundIsProper(a.log, terms);
    ProperBehind(a.opening, a.log);
    CallsNumbered(a.log, terms);
    EveryCallOnce(History(db, a.run), omitted, note);
  }

  /** So it is for every run executed from its start. */
  lemma StartedRunTellsCalls(db: Database.Db, a: Account, terms: Terms, omitted: set<CallId>, note: string -> string)
    requires Kept(db, a) && Sound(a.log, terms) && |Database.Log(a.begun.events, a.run)| == 3
    ensures Proper(History(db, a.run))
    ensures var ids := ResultCalls(Results(History(db, a.run), omitted, note));
      ids == Requested(a.log) && forall i | 0 <= i < |ids| :: ids[i] == i + 1
  {
    TiedIs(db, a);
    OpeningHasNoCalls(a.begun, a.run);
    ResultsTellCalls(db, a, terms, omitted, note);
  }
}
