/** What an executed run records, exchange by exchange: an IR, the inference on it, the reply, and then its tool calls or
    a review. When a run goes on, when it may end, and what the model is shown next. */
module Exchanges {
  import opened Common
  import opened Records
  import opened ToolLog
  import opened Execution
  import opened Announced
  import opened Journals
  import Database
  import Fitting
  import Projection
  import Responses
  import Turns

  // ---- Replies and what follows them ----

  function Deltas(texts: seq<string>): (d: seq<EventData>)
    ensures AllQuiet(d)
  {
    seq(|texts|, i requires 0 <= i < |texts| => InferenceDelta(texts[i]))
  }

  /** Whether the model must address a review: it found something, the code is not what was handed back
      before, and reviews are left. */
  predicate MustAddress(review: Reviewed, before: Option<string>, round: nat, terms: Terms) {
    review.findings != [] && before != Some(review.fingerprint) && round < terms.reviews
  }

  /** The three parts of what happens: what was given, what was answered, and what became of that. */
  datatype Part = Given | Answered | CarriedOut

  ghost predicate RememberingPart(part: Part, run: RunId, opening: seq<EventData>, before: seq<EventData>, findings: seq<Finding>,
                                  more: seq<EventData>)
  {
    match part
    case Given => true
    case Answered => Found(more)
    case CarriedOut =>
      exists db: Database.Db, ids: seq<nat>, refs: seq<string> ::
        |ids| == |findings| == |refs| && run in db.runs && History(db, run) == opening + before
        && more == FindingEvents(db, db.runs[run].project, findings, ids, refs)
  }

  /** `more` announces nodes for the findings the project had none for when the run's record was `before`. */
  ghost predicate Remembering(run: RunId, opening: seq<EventData>, before: seq<EventData>, findings: seq<Finding>, more: seq<EventData>) {
    forall part :: RememberingPart(part, run, opening, before, findings, more)
  }

  lemma RememberingIs(run: RunId, opening: seq<EventData>, before: seq<EventData>, findings: seq<Finding>, more: seq<EventData>, db: Database.Db,
                      ids: seq<nat>, refs: seq<string>)
    requires |ids| == |findings| == |refs| && run in db.runs && History(db, run) == opening + before && Found(more)
    requires more == FindingEvents(db, db.runs[run].project, findings, ids, refs)
    ensures Remembering(run, opening, before, findings, more)
  {
  }

  lemma RememberingFinds(run: RunId, opening: seq<EventData>, before: seq<EventData>, findings: seq<Finding>, more: seq<EventData>)
    requires Remembering(run, opening, before, findings, more)
    ensures Found(more)
  {
    assert RememberingPart(Answered, run, opening, before, findings, more);
  }

  ghost predicate ReviewedPart(part: Part, run: RunId, opening: seq<EventData>, recorded: seq<EventData>, after: seq<EventData>,
                               seen: Reviewed, handedBack: bool)
  {
    match part
    case Given => |recorded| <= |after| && after[..|recorded|] == recorded
    case Answered => handedBack || seen.findings == [] ==> after == recorded
    case CarriedOut =>
      |recorded| <= |after| && (!handedBack && seen.findings != [] ==> Remembering(run, opening, recorded, seen.findings, after[|recorded|..]))
  }

  /** What a review leaves: its record, and, if it found something that is not handed back, the nodes that remember it. */
  ghost predicate ReviewedAs(run: RunId, opening: seq<EventData>, before: seq<EventData>, after: seq<EventData>, round: nat, seen: Reviewed,
                             error: Option<string>, handedBack: bool)
  {
    forall part :: ReviewedPart(part, run, opening, before + [ReviewCompleted(round, seen.findings, error)], after, seen, handedBack)
  }

  lemma ReviewLeaves(run: RunId, opening: seq<EventData>, before: seq<EventData>, after: seq<EventData>, round: nat, seen: Reviewed,
                     error: Option<string>, handedBack: bool) returns (more: seq<EventData>)
    requires ReviewedAs(run, opening, before, after, round, seen, error, handedBack)
    ensures after == before + [ReviewCompleted(round, seen.findings, error)] + more && Found(more)
  {
    var recorded := before + [ReviewCompleted(round, seen.findings, error)];
    assert ReviewedPart(Given, run, opening, recorded, after, seen, handedBack) && ReviewedPart(Answered, run, opening, recorded, after, seen, handedBack);
    assert ReviewedPart(CarriedOut, run, opening, recorded, after, seen, handedBack);
    more := after[|recorded|..];
    if !handedBack && seen.findings != [] {
      RememberingFinds(run, opening, recorded, seen.findings, more);
    }
  }

  /** A review that is handed back or found nothing leaves its record alone. */
  lemma LeavesRecord(run: RunId, opening: seq<EventData>, before: seq<EventData>, round: nat, seen: Reviewed, error: Option<string>, handedBack: bool)
    requires handedBack || seen.findings == []
    ensures ReviewedAs(run, opening, before, before + [ReviewCompleted(round, seen.findings, error)], round, seen, error, handedBack)
  {
  }

  /** Another leaves the nodes that remember it too. */
  lemma LeavesNodes(run: RunId, opening: seq<EventData>, before: seq<EventData>, recorded: seq<EventData>, round: nat, seen: Reviewed,
                    error: Option<string>, more: seq<EventData>)
    requires recorded == before + [ReviewCompleted(round, seen.findings, error)] && seen.findings != []
    requires Remembering(run, opening, recorded, seen.findings, more)
    ensures ReviewedAs(run, opening, before, recorded + more, round, seen, error, false)
  {
    assert (recorded + more)[|recorded|..] == more && (recorded + more)[..|recorded|] == recorded;
  }

  function CallIds(first: CallId, n: nat): set<CallId> { if n == 0 then {} else CallIds(first, n - 1) + {first + n - 1} }

  /** The tools that may be asked about: those the IR lists, if there is anything to run them. */
  function Runnable(hasRunner: bool, ir: Ir): set<string> { if hasRunner then set name | name in ir.tools else {} }

  /** No inference, no round, no review, no call yet. */
  predicate Unstarted(log: seq<EventData>) { Inferences(log) == Rounds(log) == Reviews(log) == 0 && Requested(log) == [] }

  // ---- One exchange ----

  /** Whether there is somebody to review, something to run tools, and a fallback for Jev. */
  datatype Has = Has(reviewer: bool, runner: bool, fallback: bool)

  /** What a run is executed with. */
  datatype Case = Case(run: RunId, task: NodeId, opening: seq<EventData>, terms: Terms, has: Has, window: nat,
                       size: Ir -> nat, bytes: string -> nat, note: string -> string, world: World,
                       classification: Classification, recalled: seq<Turns.Scored>)

  /** The step taken, the IR compiled for it, what the provider streamed and gave, the reply, the ids of what it created, the record
      once it was applied, and the review recorded after it, if one was. */
  datatype Exchange = Exchange(step: Fitting.StepInput, ir: Ir, told: seq<string>, raw: string, response: Response, ids: seq<nat>,
                               applied: seq<EventData>, seen: Option<Reviewed>)

  function SettingOf(k: Case, now: Database.Db, step: Fitting.StepInput): Fitting.Setting {
    Fitting.Setting(now, k.run, k.task, Exposed(k.terms.tools, k.classification.tools), step, k.window, k.size, k.bytes, k.note)
  }

  /** The IR is fitted from tables that hold the run's history so far. */
  ghost predicate CompiledFrom(k: Case, before: seq<EventData>, step: Fitting.StepInput, ir: Ir) {
    exists now, ps :: History(now, k.run) == k.opening + before && Fitting.Fits(SettingOf(k, now, step), ps, ir)
  }

  lemma CompiledIs(k: Case, before: seq<EventData>, step: Fitting.StepInput, ir: Ir, now: Database.Db, ps: seq<Fitting.Progress>)
    requires History(now, k.run) == k.opening + before && Fitting.Fits(SettingOf(k, now, step), ps, ir)
    ensures CompiledFrom(k, before, step, ir)
  {
  }

  ghost predicate ReplyPart(part: Part, k: Case, before: seq<EventData>, x: Exchange) {
    match part
    case Given => CompiledFrom(k, before, x.step, x.ir)
    case Answered => x.response == k.world.reply(x.raw) && Responses.ValidResponse(x.response, x.ir)
    case CarriedOut =>
      |x.ids| == |x.response.emissions| && Database.EndpointsResolve(Database.RefsOf(x.response.emissions), x.response.emissions)
      && x.applied == before + [IrCompiled(x.ir)] + [InferenceStarted] + Deltas(x.told) + [InferenceCompleted(x.raw)] + ReplyEvents(x.response, x.ids)
  }

  /** The IR, the inference on it, and the reply, valid against it and applied. */
  ghost predicate Replied(k: Case, before: seq<EventData>, x: Exchange) { forall part :: ReplyPart(part, k, before, x) }

  lemma RepliedIs(k: Case, before: seq<EventData>, x: Exchange)
    ensures Replied(k, before, x) <==> ReplyPart(Given, k, before, x) && ReplyPart(Answered, k, before, x) && ReplyPart(CarriedOut, k, before, x)
  {
    if ReplyPart(Given, k, before, x) && ReplyPart(Answered, k, before, x) && ReplyPart(CarriedOut, k, before, x) {
      forall part ensures ReplyPart(part, k, before, x) {
        match part { case Given => case Answered => case CarriedOut => }
      }
    }
  }

  lemma RepliesSeen(k: Case, before: seq<EventData>, x: Exchange, seen: Option<Reviewed>)
    requires Replied(k, before, x)
    ensures Replied(k, before, x.(seen := seen))
  {
    RepliedIs(k, before, x);
    RepliedIs(k, before, x.(seen := seen));
  }

  /** Where a run stands between two exchanges: its tool rounds, the next call's id, its reviews, the code the last one handed
      back was of, that review, and the calls of the latest round. */
  datatype Standing = Standing(rounds: nat, nextCall: nat, reviews: nat, fingerprint: Option<string>, review: Option<Review>,
                               latestRound: set<CallId>)

  const BEGINNING: Standing := Standing(0, 1, 0, None, None, {})

  predicate PastLimit(terms: Terms, st: Standing) { st.rounds + 1 > terms.toolRounds }

  /** Whether another exchange follows: the reply asked for tools and its round is within the limit, or it is to address what a
      review found. */
  predicate Continues(terms: Terms, st: Standing, x: Exchange) {
    if x.response.toolCalls != [] then !PastLimit(terms, st)
    else x.seen.Some? && MustAddress(x.seen.value, st.fingerprint, st.reviews + 1, terms)
  }

  function After(terms: Terms, st: Standing, x: Exchange): Standing {
    if x.response.toolCalls != [] then
      var n := |x.response.toolCalls|;
      st.(rounds := st.rounds + 1, nextCall := st.nextCall + n, latestRound := CallIds(st.nextCall, n))
    else if x.seen.None? then st
    else if Continues(terms, st, x) then
      st.(reviews := st.reviews + 1, fingerprint := Some(x.seen.value.fingerprint),
          review := Some(Review(st.reviews + 1, terms.reviews, x.seen.value.findings)))
    else st.(reviews := st.reviews + 1)
  }

  function StandingAfter(terms: Terms, xs: seq<Exchange>): Standing {
    if xs == [] then BEGINNING else After(terms, StandingAfter(terms, xs[..|xs| - 1]), xs[|xs| - 1])
  }

  /** The number of the exchange that comes next. */
  function Turn(st: Standing): nat { st.rounds + st.reviews }

  /** A step takes what was recalled, the review handed back last and the latest round; it leaves out the results no longer relevant, but none
      of that round, and before any round none at all. */
  predicate Takes(k: Case, st: Standing, step: Fitting.StepInput) {
    step.recalled == k.recalled && step.review == st.review && step.latestRound == st.latestRound && step.budget == k.world.budget
    && step.omitted == if st.rounds > 0 then k.world.irrelevant(Turn(st)) - st.latestRound else {}
  }

  /** What was streamed and given is what the provider did. */
  predicate Infers(k: Case, st: Standing, x: Exchange) {
    var inference := k.world.provider(Turn(st));
    x.told == inference.texts && inference.raw == Some(x.raw)
  }

  ghost predicate ReplyingPart(part: Part, k: Case, before: seq<EventData>, st: Standing, x: Exchange) {
    match part
    case Given => Takes(k, st, x.step)
    case Answered => Infers(k, st, x)
    case CarriedOut => Replied(k, before, x)
  }

  /** An exchange up to its reply. */
  ghost predicate Replying(k: Case, before: seq<EventData>, st: Standing, x: Exchange) { forall part :: ReplyingPart(part, k, before, st, x) }

  lemma ReplyingIs(k: Case, before: seq<EventData>, st: Standing, x: Exchange)
    ensures Replying(k, before, st, x) <==> Takes(k, st, x.step) && Infers(k, st, x) && Replied(k, before, x)
  {
    if Replying(k, before, st, x) {
      assert ReplyingPart(Given, k, before, st, x) && ReplyingPart(Answered, k, before, st, x) && ReplyingPart(CarriedOut, k, before, st, x);
    }
  }

  /** The review of a reply without tool calls, if there is somebody to review, reviews are left, and it judged something or failed. */
  function Heard(k: Case, st: Standing): Option<Reviewed> {
    var answer := k.world.reviewer(Turn(st));
    if !k.has.reviewer || st.reviews >= k.terms.reviews then None
    else if answer.error.Some? then Some(Reviewed(0, [], ""))
    else if answer.review.judged == 0 then None
    else Some(answer.review)
  }

  /** The reply's calls, handled one by one, or the review of a reply that asks for none. */
  ghost predicate Settled(k: Case, st: Standing, x: Exchange, after: seq<EventData>) {
    if x.response.toolCalls != [] then
      x.seen.None?
      && HandledAll(k.world, x.applied, after, st.nextCall, x.response.toolCalls, PastLimit(k.terms, st), Runnable(k.has.runner, x.ir))
    else
      x.seen == Heard(k, st)
      && if x.seen.None? then after == x.applied
         else ReviewedAs(k.run, k.opening, x.applied, after, st.reviews + 1, x.seen.value, k.world.reviewer(Turn(st)).error,
                         Continues(k.terms, st, x))
  }

  ghost predicate PartDone(part: Part, k: Case, before: seq<EventData>, after: seq<EventData>, st: Standing, x: Exchange) {
    match part
    case Given => Takes(k, st, x.step)
    case Answered => Replied(k, before, x) && Infers(k, st, x)
    case CarriedOut => Settled(k, st, x, after)
  }

  /** An exchange leads from the record `before` to `after`. */
  ghost predicate Exchanged(k: Case, before: seq<EventData>, after: seq<EventData>, st: Standing, x: Exchange) {
    forall part :: PartDone(part, k, before, after, st, x)
  }

  lemma ExchangedIs(k: Case, before: seq<EventData>, after: seq<EventData>, st: Standing, x: Exchange)
    ensures Exchanged(k, before, after, st, x) <==> Takes(k, st, x.step) && Replied(k, before, x) && Infers(k, st, x) && Settled(k, st, x, after)
  {
    if Exchanged(k, before, after, st, x) {
      assert PartDone(Given, k, before, after, st, x) && PartDone(Answered, k, before, after, st, x) && PartDone(CarriedOut, k, before, after, st, x);
    }
  }

  /** What follows an exchange: nothing more, a review to address, or the results of its calls. */
  datatype Next = Finished | Reviewing(review: Review) | Working(calls: nat)

  /** Where the run stands after an exchange that another follows. */
  function Stands(st: Standing, next: Next, fingerprint: Option<string>): Standing {
    match next
    case Working(calls) => st.(rounds := st.rounds + 1, nextCall := st.nextCall + calls, latestRound := CallIds(st.nextCall, calls))
    case Reviewing(review) => st.(reviews := st.reviews + 1, fingerprint := fingerprint, review := Some(review))
    case Finished => st
  }

  ghost predicate ProceedsPart(part: Part, k: Case, before: seq<EventData>, after: seq<EventData>, st: Standing, x: Exchange, next: Next,
                               now: Standing)
  {
    match part
    case Given => Exchanged(k, before, after, st, x)
    case Answered => next.Finished? <==> !Continues(k.terms, st, x)
    case CarriedOut => !next.Finished? ==> After(k.terms, st, x) == now
  }

  /** An exchange, and what follows it: `next`, with the run standing as `now`. */
  ghost predicate Proceeds(k: Case, before: seq<EventData>, after: seq<EventData>, st: Standing, x: Exchange, next: Next, now: Standing) {
    forall part :: ProceedsPart(part, k, before, after, st, x, next, now)
  }

  lemma ProceedsIs(k: Case, before: seq<EventData>, after: seq<EventData>, st: Standing, x: Exchange, next: Next, now: Standing)
    ensures Proceeds(k, before, after, st, x, next, now) <==>
      Exchanged(k, before, after, st, x) && (next.Finished? <==> !Continues(k.terms, st, x))
      && (!next.Finished? ==> After(k.terms, st, x) == now)
  {
    if Proceeds(k, before, after, st, x, next, now) {
      assert ProceedsPart(Given, k, before, after, st, x, next, now) && ProceedsPart(Answered, k, before, after, st, x, next, now);
      assert ProceedsPart(CarriedOut, k, before, after, st, x, next, now);
    }
  }

  /** After a reply that asks for no tools, and its review if there was one. */
  lemma ReviewProceeds(k: Case, before: seq<EventData>, st: Standing, given: Exchange, seen: Option<Reviewed>, after: seq<EventData>,
                       handed: Option<Review>, fingerprint: Option<string>)
    requires Replying(k, before, st, given) && given.response.toolCalls == []
    requires seen == Heard(k, st)
    requires if seen.None? then after == given.applied && handed.None?
      else ReviewedAs(k.run, k.opening, given.applied, after, st.reviews + 1, seen.value, k.world.reviewer(Turn(st)).error, handed.Some?)
           && (handed.Some? <==> MustAddress(seen.value, st.fingerprint, st.reviews + 1, k.terms))
    requires handed.Some? ==>
      handed == Some(Review(st.reviews + 1, k.terms.reviews, seen.value.findings)) && fingerprint == Some(seen.value.fingerprint)
    ensures var next := if handed.Some? then Reviewing(handed.value) else Finished;
      Proceeds(k, before, after, st, given.(seen := seen), next, Stands(st, next, fingerprint))
  {
    var next, x := if handed.Some? then Reviewing(handed.value) else Finished, given.(seen := seen);
    ReplyingIs(k, before, st, given);
    RepliesSeen(k, before, given, seen);
    ExchangedIs(k, before, after, st, x);
    ProceedsIs(k, before, after, st, x, next, Stands(st, next, fingerprint));
  }

  /** After a reply's calls have been handled. */
  lemma RoundProceeds(k: Case, before: seq<EventData>, st: Standing, x: Exchange, after: seq<EventData>, fingerprint: Option<string>)
    requires Replying(k, before, st, x) && x.response.toolCalls != [] && x.seen.None?
    requires HandledAll(k.world, x.applied, after, st.nextCall, x.response.toolCalls, PastLimit(k.terms, st), Runnable(k.has.runner, x.ir))
    ensures var next := if PastLimit(k.terms, st) then Finished else Working(|x.response.toolCalls|);
      Proceeds(k, before, after, st, x, next, Stands(st, next, fingerprint))
  {
    var next := if PastLimit(k.terms, st) then Finished else Working(|x.response.toolCalls|);
    ReplyingIs(k, before, st, x);
    ExchangedIs(k, before, after, st, x);
    ProceedsIs(k, before, after, st, x, next, Stands(st, next, fingerprint));
  }

  // ---- A run's exchanges ----

  /** The `i`-th exchange leads from the record before it to the one after it. */
  ghost predicate Leads(k: Case, logs: seq<seq<EventData>>, xs: seq<Exchange>, i: nat)
    requires i < |xs| < |logs|
  {
    Exchanged(k, logs[i], logs[i + 1], StandingAfter(k.terms, xs[..i]), xs[i])
  }

  /** The run's exchanges, and what it had recorded before and after each. */
  ghost predicate Conversed(k: Case, logs: seq<seq<EventData>>, xs: seq<Exchange>) {
    |logs| == |xs| + 1 && forall i | 0 <= i < |xs| :: Leads(k, logs, xs, i)
  }

  predicate GoesOn(terms: Terms, xs: seq<Exchange>) {
    forall i | 0 <= i < |xs| :: ContinuesAt(terms, xs, i)
  }

  predicate ContinuesAt(terms: Terms, xs: seq<Exchange>, i: nat)
    requires i < |xs|
  {
    Continues(terms, StandingAfter(terms, xs[..i]), xs[i])
  }

  /** The run may end: its last exchange needs no other, and every one before it did. */
  ghost predicate Concluded(k: Case, logs: seq<seq<EventData>>, xs: seq<Exchange>) {
    xs != [] && Conversed(k, logs, xs) && GoesOn(k.terms, xs[..|xs| - 1])
    && !Continues(k.terms, StandingAfter(k.terms, xs[..|xs| - 1]), xs[|xs| - 1])
  }

  lemma LeadsStill(k: Case, logs: seq<seq<EventData>>, xs: seq<Exchange>, after: seq<EventData>, x: Exchange, i: nat)
    requires i < |xs| < |logs| && Leads(k, logs, xs, i)
    ensures Leads(k, logs + [after], xs + [x], i)
  {
    assert (xs + [x])[..i] == xs[..i];
  }

  lemma LeadsLast(k: Case, logs: seq<seq<EventData>>, xs: seq<Exchange>, after: seq<EventData>, x: Exchange)
    requires |logs| == |xs| + 1 && Exchanged(k, logs[|xs|], after, StandingAfter(k.terms, xs), x)
    ensures Leads(k, logs + [after], xs + [x], |xs|)
  {
    assert (xs + [x])[..|xs|] == xs;
  }

  lemma StandsAfter(terms: Terms, xs: seq<Exchange>, x: Exchange)
    ensures StandingAfter(terms, xs + [x]) == After(terms, StandingAfter(terms, xs), x)
  {
    assert (xs + [x])[..|xs|] == xs;
  }

  lemma ConversesOn(k: Case, logs: seq<seq<EventData>>, xs: seq<Exchange>, after: seq<EventData>, x: Exchange)
    requires Conversed(k, logs, xs) && Exchanged(k, logs[|xs|], after, StandingAfter(k.terms, xs), x)
    ensures Conversed(k, logs + [after], xs + [x])
  {
    forall i | 0 <= i < |xs + [x]| ensures Leads(k, logs + [after], xs + [x], i) {
      if i < |xs| {
        LeadsStill(k, logs, xs, after, x, i);
      } else {
        LeadsLast(k, logs, xs, after, x);
      }
    }
  }

  lemma GoesOnMore(terms: Terms, xs: seq<Exchange>, x: Exchange)
    requires GoesOn(terms, xs) && Continues(terms, StandingAfter(terms, xs), x)
    ensures GoesOn(terms, xs + [x])
  {
    forall i | 0 <= i < |xs + [x]| ensures ContinuesAt(terms, xs + [x], i) {
      assert (xs + [x])[..i] == xs[..i];
      assert if i == |xs| then xs[..i] == xs else ContinuesAt(terms, xs, i);
    }
  }

  ghost predicate UnderwayPart(part: Part, k: Case, logs: seq<seq<EventData>>, xs: seq<Exchange>, st: Standing)
    requires |logs| == |xs| + 1
  {
    match part
    case Given => Conversed(k, logs, xs)
    case Answered => GoesOn(k.terms, xs)
    case CarriedOut => StandingAfter(k.terms, xs) == st
  }

  /** A run's exchanges so far, another following each, after which it stands as `st`. */
  ghost predicate Underway(k: Case, logs: seq<seq<EventData>>, xs: seq<Exchange>, st: Standing) {
    |logs| == |xs| + 1 && forall part :: UnderwayPart(part, k, logs, xs, st)
  }

  lemma UnderwayIs(k: Case, logs: seq<seq<EventData>>, xs: seq<Exchange>, st: Standing)
    ensures Underway(k, logs, xs, st) <==> Conversed(k, logs, xs) && GoesOn(k.terms, xs) && StandingAfter(k.terms, xs) == st
  {
    if Underway(k, logs, xs, st) {
      assert UnderwayPart(Given, k, logs, xs, st) && UnderwayPart(Answered, k, logs, xs, st) && UnderwayPart(CarriedOut, k, logs, xs, st);
    }
  }

  lemma SetsOut(k: Case, start: seq<EventData>)
    ensures Underway(k, [start], [], BEGINNING)
  {
  }

  lemma GoesFurther(k: Case, logs: seq<seq<EventData>>, xs: seq<Exchange>, st: Standing, after: seq<EventData>, x: Exchange, next: Next, now: Standing)
    requires Underway(k, logs, xs, st) && Proceeds(k, logs[|xs|], after, st, x, next, now) && !next.Finished?
    ensures Underway(k, logs + [after], xs + [x], now)
  {
    UnderwayIs(k, logs, xs, st);
    ProceedsIs(k, logs[|xs|], after, st, x, next, now);
    ConversesOn(k, logs, xs, after, x);
    GoesOnMore(k.terms, xs, x);
    StandsAfter(k.terms, xs, x);
    UnderwayIs(k, logs + [after], xs + [x], now);
  }

  lemma Concludes(k: Case, logs: seq<seq<EventData>>, xs: seq<Exchange>, st: Standing, after: seq<EventData>, x: Exchange, next: Next, now: Standing)
    requires Underway(k, logs, xs, st) && Proceeds(k, logs[|xs|], after, st, x, next, now) && next.Finished?
    ensures Concluded(k, logs + [after], xs + [x])
  {
    UnderwayIs(k, logs, xs, st);
    ProceedsIs(k, logs[|xs|], after, st, x, next, now);
    ConversesOn(k, logs, xs, after, x);
    assert (xs + [x])[..|xs|] == xs;
  }

  // ---- A whole run ----

  /** What a run recalled: everything, when it was asked for, and otherwise what Jev judged relevant, or nothing. */
  predicate RecalledFrom(now: Database.Db, run: RunId, window: nat, text: seq<Event> -> string, w: World, s: seq<Turns.Scored>) {
    run in now.runs
    && var candidates := Turns.Told(now, Turns.Candidates(now.runs, run, window), text);
      if w.everything then s == Turns.RecallEverything(candidates)
      else if w.scores.Some? then s == Turns.SelectRecalled(candidates, w.scores.value)
      else s == []
  }

  /** The classification of a request: Jev's answer if it is valid, and otherwise its fallback's, if there is one and it is. */
  predicate JevAnswers(w: World, hasFallback: bool, request: Request, c: Classification) {
    Projection.ValidClassification(request, c)
    && if w.jev(0).Some? && Projection.ValidClassification(request, w.jev(0).value) then c == w.jev(0).value
       else hasFallback && w.jev(1) == Some(c)
  }

  /** A run's exchanges, and its record before and after each. */
  datatype Course = Course(k: Case, logs: seq<seq<EventData>>, xs: seq<Exchange>)

  /** Neither Jev nor its fallback, if there is one, gives a valid answer. */
  predicate NoAnswer(w: World, hasFallback: bool, request: Request) {
    !(w.jev(0).Some? && Projection.ValidClassification(request, w.jev(0).value))
    && (hasFallback ==> !(w.jev(1).Some? && Projection.ValidClassification(request, w.jev(1).value)))
  }

  ghost predicate PreparedPart(part: Part, k: Case, start: seq<EventData>, text: seq<Event> -> string) {
    match part
    case Given =>
      (k.world.everything ==> ContextExpanded in start)
      && exists now :: History(now, k.run) == k.opening + start && RecalledFrom(now, k.run, k.window, text, k.world, k.recalled)
    case Answered =>
      Classified(start) == Some(k.classification) && AskedFor(start).Some?
      && JevAnswers(k.world, k.has.fallback, AskedFor(start).value, k.classification)
    case CarriedOut => Unstarted(start)
  }

  /** Before the first exchange: the run was classified, and had recalled its turns from tables that held its history so far. */
  ghost predicate Prepared(k: Case, start: seq<EventData>, text: seq<Event> -> string) { forall part :: PreparedPart(part, k, start, text) }

  lemma PreparedIs(k: Case, start: seq<EventData>, text: seq<Event> -> string, now: Database.Db)
    requires Unstarted(start) && Classified(start) == Some(k.classification) && History(now, k.run) == k.opening + start
    requires AskedFor(start).Some? && JevAnswers(k.world, k.has.fallback, AskedFor(start).value, k.classification)
    requires (k.world.everything ==> ContextExpanded in start) && RecalledFrom(now, k.run, k.window, text, k.world, k.recalled)
    ensures Prepared(k, start, text)
  {
  }

  ghost predicate RunsPart(part: Part, course: Course, text: seq<Event> -> string, log: seq<EventData>) {
    match part
    case Given => course.logs != [] && Prepared(course.k, course.logs[0], text)
    case Answered => Concluded(course.k, course.logs, course.xs)
    case CarriedOut => course.logs != [] && course.logs[|course.logs| - 1] == log
  }

  /** A whole run: it was prepared when its first exchange began, its last exchange needed no other, and `log` is what it had recorded
      then. */
  ghost predicate Runs(course: Course, text: seq<Event> -> string, log: seq<EventData>) { forall part :: RunsPart(part, course, text, log) }

  lemma RunsIs(course: Course, text: seq<Event> -> string, log: seq<EventData>)
    ensures Runs(course, text, log) <==>
      course.logs != [] && Prepared(course.k, course.logs[0], text) && Concluded(course.k, course.logs, course.xs)
      && course.logs[|course.logs| - 1] == log
  {
    if Runs(course, text, log) {
      assert RunsPart(Given, course, text, log) && RunsPart(Answered, course, text, log) && RunsPart(CarriedOut, course, text, log);
    }
  }

  function Extended(course: Course, after: seq<EventData>, x: Exchange): Course {
    Course(course.k, course.logs + [after], course.xs + [x])
  }

  ghost predicate OnCoursePart(part: Part, course: Course, text: seq<Event> -> string, st: Standing, log: seq<EventData>) {
    match part
    case Given => course.logs != [] && Prepared(course.k, course.logs[0], text)
    case Answered => Underway(course.k, course.logs, course.xs, st)
    case CarriedOut => |course.logs| == |course.xs| + 1 && course.logs[|course.xs|] == log
  }

  /** A run under way: it was prepared, every exchange so far needs another, it stands as `st`, and `log` is what it has recorded. */
  ghost predicate OnCourse(course: Course, text: seq<Event> -> string, st: Standing, log: seq<EventData>) {
    forall part :: OnCoursePart(part, course, text, st, log)
  }

  lemma Embarks(k: Case, start: seq<EventData>, text: seq<Event> -> string)
    requires Prepared(k, start, text)
    ensures OnCourse(Course(k, [start], []), text, BEGINNING, start)
  {
    SetsOut(k, start);
  }

  /** One more exchange either ends the run or keeps it under way. */
  lemma OneMore(course: Course, text: seq<Event> -> string, st: Standing, log: seq<EventData>, after: seq<EventData>, x: Exchange, next: Next,
                now: Standing)
    requires OnCourse(course, text, st, log) && Proceeds(course.k, log, after, st, x, next, now)
    ensures next.Finished? ==> Runs(Extended(course, after, x), text, after)
    ensures !next.Finished? ==> OnCourse(Extended(course, after, x), text, now, after)
  {
    assert OnCoursePart(Given, course, text, st, log) && OnCoursePart(Answered, course, text, st, log) && OnCoursePart(CarriedOut, course, text, st, log);
    if next.Finished? {
      Concludes(course.k, course.logs, course.xs, st, after, x, next, now);
      RunsIs(Extended(course, after, x), text, after);
    } else {
      GoesFurther(course.k, course.logs, course.xs, st, after, x, next, now);
    }
  }
}
