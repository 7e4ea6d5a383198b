/** Fitting an IR to a model's window: what is left out, in which order, and when it stops. How large
    an IR or a text is remains arbitrary, so nothing here assumes that leaving something out makes the
    IR smaller. */
module Fitting {
  import opened Common
  import opened Records
  import opened Database
  import Invariants
  import Order
  import opened Turns
  import opened ToolLog
  import opened Compilation

  // ---- The order recalled turns are left out in ----

  /** Whether turn `a` is left out before turn `b`: the less relevant, then the older. */
  predicate Before(s: seq<Scored>, a: nat, b: nat)
    requires a < |s| && b < |s|
  {
    s[a].score < s[b].score || (s[a].score == s[b].score && a < b)
  }

  predicate Indices(order: seq<nat>, n: nat) { forall i | 0 <= i < |order| :: order[i] < n }

  predicate Ascends(order: seq<nat>, s: seq<Scored>) {
    Indices(order, |s|) && forall i, j | 0 <= i < j < |order| :: Before(s, order[i], order[j])
  }

  predicate IsDropOrder(order: seq<nat>, s: seq<Scored>) {
    |order| == |s| && Ascends(order, s) && HoldsAll(order, |s|)
  }

  predicate HoldsAll(order: seq<nat>, n: nat) { forall k | 0 <= k < n :: k in order }

  /** How many of `order` stay before a new last turn: all at most as relevant. */
  function Place(order: seq<nat>, s: seq<Scored>, score: real): (p: nat)
    requires Indices(order, |s|)
    ensures p <= |order| && (p > 0 ==> s[order[p - 1]].score <= score)
    ensures forall i | p <= i < |order| :: score < s[order[i]].score
  {
    if order == [] then 0
    else if s[order[|order| - 1]].score <= score then |order|
    else Place(order[..|order| - 1], s, score)
  }

  /** Indices by relevance, least relevant first; turns judged alike stay in order. */
  function DropOrder(s: seq<Scored>): (order: seq<nat>)
    ensures IsDropOrder(order, s)
  {
    if s == [] then []
    else
      var k := |s| - 1;
      var rest := DropOrder(s[..k]);
      OrderOnMore(rest, s);
      var p := Place(rest, s, s[k].score);
      InsertKeepsOrder(rest, s, p);
      Inserted(rest, p, k)
  }

  lemma OrderOnMore(rest: seq<nat>, s: seq<Scored>)
    requires s != [] && IsDropOrder(rest, s[..|s| - 1])
    ensures Indices(rest, |s| - 1) && Ascends(rest, s)
  {
    forall i, j | 0 <= i < j < |rest| ensures Before(s, rest[i], rest[j]) {
      assert Before(s[..|s| - 1], rest[i], rest[j]);
    }
  }

  lemma ComesAfter(rest: seq<nat>, s: seq<Scored>, p: nat, i: nat)
    requires s != [] && i < p <= |rest| && Indices(rest, |s| - 1) && Ascends(rest, s)
    requires s[rest[p - 1]].score <= s[|s| - 1].score
    ensures Before(s, rest[i], |s| - 1)
  {
    if i < p - 1 {
      assert Before(s, rest[i], rest[p - 1]);
    }
  }

  /** The new last turn comes after what is before its place and before what is after it. */
  lemma PlaceFits(rest: seq<nat>, s: seq<Scored>, p: nat)
    requires s != [] && Indices(rest, |s| - 1) && Ascends(rest, s) && p == Place(rest, s, s[|s| - 1].score)
    ensures forall i | 0 <= i < p :: Before(s, rest[i], |s| - 1)
    ensures forall i | p <= i < |rest| :: Before(s, |s| - 1, rest[i])
  {
    forall i | 0 <= i < p ensures Before(s, rest[i], |s| - 1) {
      ComesAfter(rest, s, p, i);
    }
  }

  function Inserted(rest: seq<nat>, p: nat, k: nat): (order: seq<nat>)
    requires p <= |rest|
    ensures |order| == |rest| + 1
    ensures forall i | 0 <= i < |order| :: order[i] == if i < p then rest[i] else if i == p then k else rest[i - 1]
  {
    rest[..p] + [k] + rest[p..]
  }

  lemma InsertedAscends(rest: seq<nat>, s: seq<Scored>, p: nat)
    requires s != [] && p <= |rest| && Indices(rest, |s| - 1) && Ascends(rest, s)
    requires forall i | 0 <= i < p :: Before(s, rest[i], |s| - 1)
    requires forall i | p <= i < |rest| :: Before(s, |s| - 1, rest[i])
    ensures Ascends(Inserted(rest, p, |s| - 1), s)
  {
  }

  lemma InsertedHoldsAll(rest: seq<nat>, k: nat, p: nat)
    requires p <= |rest| && HoldsAll(rest, k)
    ensures HoldsAll(Inserted(rest, p, k), k + 1)
  {
    var order := Inserted(rest, p, k);
    forall x | 0 <= x < k + 1 ensures x in order {
      if x == k {
        assert order[p] == k;
      } else {
        assert x in rest;
        var i :| 0 <= i < |rest| && rest[i] == x;
        assert order[if i < p then i else i + 1] == x;
      }
    }
  }

  lemma InsertKeepsOrder(rest: seq<nat>, s: seq<Scored>, p: nat)
    requires s != [] && IsDropOrder(rest, s[..|s| - 1]) && Indices(rest, |s|) && p == Place(rest, s, s[|s| - 1].score)
    ensures IsDropOrder(Inserted(rest, p, |s| - 1), s)
  {
    OrderOnMore(rest, s);
    PlaceFits(rest, s, p);
    InsertedAscends(rest, s, p);
    InsertedHoldsAll(rest, |s| - 1, p);
  }

  // ---- What a fit leaves out ----

  /** A fit: which recalled turns are kept, which outputs are replaced by a note, and how many recent
      turns are carried. */
  datatype Fit = Fit(kept: seq<bool>, omitted: set<CallId>, window: nat)

  datatype StepInput = StepInput(recalled: seq<Scored>, omitted: set<CallId>, latestRound: set<CallId>, review: Option<Review>,
                                 budget: Option<nat>)

  function KeptTurns(s: seq<Scored>, kept: seq<bool>): seq<RecalledTurn>
    requires |kept| == |s|
  {
    if s == [] then []
    else
      var k := |s| - 1;
      var rest := KeptTurns(s[..k], kept[..k]);
      if kept[k] then rest + [s[k].turn] else rest
  }

  function HistoryOf(step: StepInput, fit: Fit): History
    requires |fit.kept| == |step.recalled|
  {
    History(fit.window, KeptTurns(step.recalled, fit.kept), fit.omitted, step.review)
  }

  /** Nothing left out beyond what the step itself leaves out. */
  function Whole(step: StepInput, window: nat): Fit {
    Fit(seq(|step.recalled|, _ => true), step.omitted, window)
  }

  function Fitted(db: Db, run: RunId, task: NodeId, tools: seq<string>, step: StepInput, fit: Fit, note: string -> string)
    : Result<Ir, CompileError>
    requires |fit.kept| == |step.recalled|
  {
    Compile(db, run, task, tools, HistoryOf(step, fit), note)
  }

  /** A budget is exceeded by an IR of its own size too. */
  predicate Over(step: StepInput, size: nat) { step.budget.Some? && size >= step.budget.value }

  predicate OutputOf(r: ToolResult, latestRound: set<CallId>) { r.call !in latestRound && r.output.Some? }

  /** The calls of earlier rounds whose outputs may be left out, in order. */
  function Earliest(results: seq<ToolResult>, latestRound: set<CallId>): (ids: seq<CallId>) {
    if results == [] then []
    else
      var rest := Earliest(results[..|results| - 1], latestRound);
      var last := results[|results| - 1];
      if OutputOf(last, latestRound) then rest + [last.call] else rest
  }

  function EarlierOutputs(db: Db, run: RunId, latestRound: set<CallId>): seq<CallId> {
    Earliest(Results(DataOf(Log(db.events, run)), {}, x => x), latestRound)
  }

  predicate NoneKept(fit: Fit) { forall i | 0 <= i < |fit.kept| :: !fit.kept[i] }

  predicate AllOmitted(outputs: seq<CallId>, omitted: set<CallId>) { forall i | 0 <= i < |outputs| :: outputs[i] in omitted }

  /** The recalled turns left out are the least relevant ones, the older first among equals. */
  predicate LeastRelevantOut(s: seq<Scored>, kept: seq<bool>) {
    |kept| == |s| && forall i, j | 0 <= i < |s| && 0 <= j < |s| && kept[i] && !kept[j] :: Before(s, j, i)
  }

  /** Outputs are left out oldest first, none of the latest round's. */
  predicate OldestOutputsOut(outputs: seq<CallId>, before: set<CallId>, omitted: set<CallId>) {
    before <= omitted
    && forall c | c in omitted && c !in before :: c in outputs && AllOmitted(outputs[..First(outputs, c)], omitted)
  }

  /** The order in which a fit gives things up: recalled turns, then earlier outputs, then turns of the
      window. */
  predicate InPriority(step: StepInput, window: nat, outputs: seq<CallId>, fit: Fit) {
    LeastRelevantOut(step.recalled, fit.kept) && OldestOutputsOut(outputs, step.omitted, fit.omitted)
    && (fit.omitted != step.omitted ==> NoneKept(fit))
    && fit.window <= window && (fit.window < window ==> NoneKept(fit) && AllOmitted(outputs, fit.omitted))
  }

  predicate NothingLeft(db: Db, run: RunId, outputs: seq<CallId>, fit: Fit)
    requires run in db.runs
  {
    NoneKept(fit) && AllOmitted(outputs, fit.omitted) && (fit.window == 0 || RecentOutcomes(db, run, fit.window) == [])
  }

  // ---- Results do not change shape when outputs are left out ----

  predicate SameShape(a: seq<ToolResult>, b: seq<ToolResult>) {
    |a| == |b| && forall i | 0 <= i < |a| :: a[i].call == b[i].call && a[i].status == b[i].status && a[i].output.Some? == b[i].output.Some?
  }

  lemma {:induction false} OmittingKeepsShape(log: seq<EventData>, a: set<CallId>, b: set<CallId>, f: string -> string, g: string -> string)
    ensures SameShape(Results(log, a, f), Results(log, b, g))
  {
    if log != [] {
      OmittingKeepsShape(log[..|log| - 1], a, b, f, g);
      var x, y := Results(log[..|log| - 1], a, f), Results(log[..|log| - 1], b, g);
      assert ResultCalls(x) == ResultCalls(y);
    }
  }

  lemma {:induction false} ShapeDecides(a: seq<ToolResult>, b: seq<ToolResult>, latestRound: set<CallId>)
    requires SameShape(a, b)
    ensures Earliest(a, latestRound) == Earliest(b, latestRound)
  {
    if a != [] {
      ShapeDecides(a[..|a| - 1], b[..|b| - 1], latestRound);
    }
  }

  lemma OutputsOfIr(db: Db, run: RunId, task: NodeId, tools: seq<string>, step: StepInput, fit: Fit, note: string -> string)
    requires |fit.kept| == |step.recalled| && Fitted(db, run, task, tools, step, fit, note).Ok?
    ensures Earliest(Fitted(db, run, task, tools, step, fit, note).value.toolResults, step.latestRound)
      == EarlierOutputs(db, run, step.latestRound)
  {
    var log := DataOf(Log(db.events, run));
    OmittingKeepsShape(log, fit.omitted, {}, note, x => x);
    ShapeDecides(Results(log, fit.omitted, note), Results(log, {}, x => x), step.latestRound);
  }

  // ---- Finding the next output to leave out ----

  lemma EarliestStep(results: seq<ToolResult>, latestRound: set<CallId>, i: nat)
    requires i < |results|
    ensures Earliest(results[..i + 1], latestRound)
      == Earliest(results[..i], latestRound) + if OutputOf(results[i], latestRound) then [results[i].call] else []
  {
    assert results[..i + 1][..i] == results[..i];
  }

  lemma {:induction false} EarliestPrefix(results: seq<ToolResult>, latestRound: set<CallId>, i: nat)
    requires i <= |results|
    ensures |Earliest(results[..i], latestRound)| <= |Earliest(results, latestRound)|
    ensures Earliest(results[..i], latestRound) == Earliest(results, latestRound)[..|Earliest(results[..i], latestRound)|]
    decreases |results| - i
  {
    if i == |results| {
      assert results[..i] == results;
    } else {
      EarliestStep(results, latestRound, i);
      EarliestPrefix(results, latestRound, i + 1);
    }
  }

  predicate IsNext(outputs: seq<CallId>, omitted: set<CallId>, at: nat, call: CallId) {
    at < |outputs| && outputs[at] == call && call !in omitted && forall k | 0 <= k < at :: outputs[k] in omitted
  }

  /** The first output that may still be left out: its result and its place among them. */
  method FindEarlier(results: seq<ToolResult>, latestRound: set<CallId>, omitted: set<CallId>) returns (r: Option<ToolResult>, ghost at: nat)
    ensures r.None? ==> AllOmitted(Earliest(results, latestRound), omitted)
    ensures r.Some? ==> r.value in results && r.value.output.Some?
    ensures r.Some? ==> IsNext(Earliest(results, latestRound), omitted, at, r.value.call)
  {
    at := 0;
    for i := 0 to |results|
      invariant AllOmitted(Earliest(results[..i], latestRound), omitted)
    {
      EarliestStep(results, latestRound, i);
      if results[i].call !in latestRound && results[i].call !in omitted && results[i].output.Some? {
        EarliestPrefix(results, latestRound, i + 1);
        at := |Earliest(results[..i], latestRound)|;
        ghost var found := Earliest(results[..i + 1], latestRound);
        assert found == Earliest(results, latestRound)[..|found|];
        assert forall k | 0 <= k < |found| :: Earliest(results, latestRound)[k] == found[k];
        return Some(results[i]), at;
      }
    }
    assert results[..|results|] == results;
    r := None;
  }

  // ---- The fitting loop ----

  /** What is left to give up: turns, outputs, turns of the window. */
  predicate LessLeft(a: nat, b: nat, c: nat, a': nat, b': nat, c': nat) {
    a' < a || (a' == a && (b' < b || (b' == b && c' < c)))
  }

  /** The outputs still in. */
  function Open(outputs: seq<CallId>, omitted: set<CallId>): set<CallId> { set c | c in outputs && c !in omitted }

  predicate KeptAfter(kept: seq<bool>, order: seq<nat>, next: nat) {
    Indices(order, |kept|) && next <= |order| && forall i | 0 <= i < |order| :: kept[order[i]] <==> next <= i
  }

  /** How far a fit has got: `next` turns left out, then outputs, then turns of the window. */
  predicate Fitting(step: StepInput, window: nat, order: seq<nat>, outputs: seq<CallId>, next: nat, fit: Fit) {
    |fit.kept| == |step.recalled| && KeptAfter(fit.kept, order, next)
    && OldestOutputsOut(outputs, step.omitted, fit.omitted) && (fit.omitted != step.omitted ==> next == |order|)
    && fit.window <= window && (fit.window < window ==> next == |order| && AllOmitted(outputs, fit.omitted))
  }

  lemma AllDropped(step: StepInput, order: seq<nat>, fit: Fit)
    requires IsDropOrder(order, step.recalled) && |fit.kept| == |step.recalled| && KeptAfter(fit.kept, order, |order|)
    ensures NoneKept(fit)
  {
    forall k | 0 <= k < |fit.kept| ensures !fit.kept[k] {
      assert k in order;
      var i :| 0 <= i < |order| && order[i] == k;
    }
  }

  lemma DroppedLeastRelevant(s: seq<Scored>, order: seq<nat>, kept: seq<bool>, next: nat)
    requires IsDropOrder(order, s) && |kept| == |s| && KeptAfter(kept, order, next)
    ensures LeastRelevantOut(s, kept)
  {
    forall i, j | 0 <= i < |s| && 0 <= j < |s| && kept[i] && !kept[j] ensures Before(s, j, i) {
      assert i in order && j in order;
      var a :| 0 <= a < |order| && order[a] == i;
      var b :| 0 <= b < |order| && order[b] == j;
      assert b < next <= a;
    }
  }

  /** A fit in progress gives things up in priority order. */
  lemma FittingInPriority(step: StepInput, window: nat, order: seq<nat>, outputs: seq<CallId>, next: nat, fit: Fit)
    requires IsDropOrder(order, step.recalled) && Fitting(step, window, order, outputs, next, fit)
    ensures InPriority(step, window, outputs, fit)
  {
    DroppedLeastRelevant(step.recalled, order, fit.kept, next);
    if next == |order| {
      AllDropped(step, order, fit);
    }
  }

  lemma DropsTurn(step: StepInput, window: nat, order: seq<nat>, outputs: seq<CallId>, next: nat, fit: Fit)
    requires IsDropOrder(order, step.recalled) && Fitting(step, window, order, outputs, next, fit) && next < |order|
    ensures Fitting(step, window, order, outputs, next + 1, fit.(kept := fit.kept[order[next] := false]))
  {
    forall i | 0 <= i < |order| && i != next ensures order[i] != order[next] {
      if i < next {
        assert Before(step.recalled, order[i], order[next]);
      } else {
        assert Before(step.recalled, order[next], order[i]);
      }
    }
  }

  lemma OmitsOutput(step: StepInput, window: nat, order: seq<nat>, outputs: seq<CallId>, fit: Fit, at: nat, call: CallId)
    requires Fitting(step, window, order, outputs, |order|, fit) && IsNext(outputs, fit.omitted, at, call)
    ensures Fitting(step, window, order, outputs, |order|, fit.(omitted := fit.omitted + {call}))
    ensures |Open(outputs, fit.omitted + {call})| < |Open(outputs, fit.omitted)|
  {
    var omitted := fit.omitted + {call};
    assert First(outputs, call) == at;
    forall c | c in omitted && c !in step.omitted ensures c in outputs && AllOmitted(outputs[..First(outputs, c)], omitted) {
      if c != call {
        assert AllOmitted(outputs[..First(outputs, c)], fit.omitted);
      }
    }
    assert Open(outputs, fit.omitted) == Open(outputs, omitted) + {call};
  }

  lemma CompilesAlike(db: Db, run: RunId, task: NodeId, tools: seq<string>, a: History, b: History, note: string -> string)
    ensures Compile(db, run, task, tools, a, note).Ok? <==> Compile(db, run, task, tools, b, note).Ok?
    ensures Compile(db, run, task, tools, a, note).Ok? ==>
      run in db.runs && Compile(db, run, task, tools, a, note).value.recent == RecentOutcomes(db, run, a.window)
  {
  }

  lemma {:induction false} OutcomesAtMost(db: Db, turns: seq<RunId>)
    requires forall i | 0 <= i < |turns| :: turns[i] in db.runs
    ensures |Outcomes(db, turns)| <= |turns|
  {
    if turns != [] {
      OutcomesAtMost(db, turns[..|turns| - 1]);
    }
  }

  lemma RecentAtMost(db: Db, run: RunId, window: nat)
    requires run in db.runs
    ensures |RecentOutcomes(db, run, window)| <= window
  {
    EarlierInRuns(db.runs, run, window);
    OutcomesAtMost(db, Earlier(db.runs, run, window));
  }

  /** The size of the recalled turns from place `start` up to place `end` in the order they are left out in. */
  function TurnsSize(s: seq<Scored>, order: seq<nat>, start: nat, end: nat, bytes: string -> nat): nat
    requires Indices(order, |s|) && start <= end <= |order|
    decreases end
  {
    if start == end then 0 else TurnsSize(s, order, start, end - 1, bytes) + bytes(s[order[end - 1]].turn.text)
  }

  predicate HaveOutputs(outs: seq<ToolResult>) { forall i | 0 <= i < |outs| :: outs[i].output.Some? }

  function OutputsSize(outs: seq<ToolResult>, bytes: string -> nat): nat
    requires HaveOutputs(outs)
  {
    if outs == [] then 0 else OutputsSize(outs[..|outs| - 1], bytes) + bytes(outs[|outs| - 1].output.value)
  }

  function CallSet(outs: seq<ToolResult>): set<CallId> { set r | r in outs :: r.call }

  /** How far a fit has got between two rounds, and whether it has nothing left to give up. */
  datatype Progress = Progress(next: nat, fit: Fit, exhausted: bool)

  /** `outs` are the results whose outputs are left out from `a` on to `b`, in order, each once. */
  predicate TakesOut(results: seq<ToolResult>, outs: seq<ToolResult>, a: set<CallId>, b: set<CallId>) {
    HaveOutputs(outs) && (forall i | 0 <= i < |outs| :: outs[i] in results && outs[i].call !in a)
    && Distinct(ResultCalls(outs)) && b == a + CallSet(outs)
  }

  /** Each thing is given up only while what was given up before it, from `a` on, does not make up for the `over` bytes
      too many. */
  predicate Spares(step: StepInput, order: seq<nat>, ir: Ir, over: nat, bytes: string -> nat, a: Progress, b: Progress, outs: seq<ToolResult>)
    requires Indices(order, |step.recalled|) && a.next <= b.next <= |order| && HaveOutputs(outs)
  {
    var turns := TurnsSize(step.recalled, order, a.next, b.next, bytes);
    (a.next < b.next ==> TurnsSize(step.recalled, order, a.next, b.next - 1, bytes) <= over)
    && (outs != [] ==> b.next == |order| && turns + OutputsSize(outs[..|outs| - 1], bytes) <= over)
    && (b.fit.window != a.fit.window ==>
          b.fit.window == |ir.recent| - 1 && b.next == |order| && AllOmitted(Earliest(ir.toolResults, step.latestRound), b.fit.omitted)
          && turns + OutputsSize(outs, bytes) <= over)
  }

  /** One round: it ends as soon as what it has given up makes up for the bytes too many, or with a turn of the window,
      or, short of them, with nothing left. */
  predicate GivesUp(step: StepInput, order: seq<nat>, ir: Ir, over: nat, bytes: string -> nat, a: Progress, b: Progress, outs: seq<ToolResult>)
    requires Indices(order, |step.recalled|) && a.next <= b.next <= |order| && HaveOutputs(outs)
  {
    Spares(step, order, ir, over, bytes, a, b, outs)
    && (b.exhausted <==> b.fit.window == a.fit.window && Freed(step, order, bytes, a, b, outs) <= over)
  }

  function Freed(step: StepInput, order: seq<nat>, bytes: string -> nat, a: Progress, b: Progress, outs: seq<ToolResult>): nat
    requires Indices(order, |step.recalled|) && a.next <= b.next <= |order| && HaveOutputs(outs)
  {
    TurnsSize(step.recalled, order, a.next, b.next, bytes) + OutputsSize(outs, bytes)
  }

  lemma OutputTaken(results: seq<ToolResult>, outs: seq<ToolResult>, a: set<CallId>, b: set<CallId>, r: ToolResult)
    requires TakesOut(results, outs, a, b) && r in results && r.output.Some? && r.call !in b
    ensures TakesOut(results, outs + [r], a, b + {r.call})
  {
    var more := outs + [r];
    assert ResultCalls(more) == ResultCalls(outs) + [r.call];
    forall i | 0 <= i < |outs| ensures ResultCalls(outs)[i] != r.call {
      assert outs[i] in outs && outs[i].call in CallSet(outs);
    }
    forall c ensures c in CallSet(more) <==> c in CallSet(outs) || c == r.call {
      if c in CallSet(outs) {
        var x :| x in outs && x.call == c;
        assert x in more;
      }
      assert r in more;
    }
  }

  lemma OneMoreOutput(outs: seq<ToolResult>, r: ToolResult, bytes: string -> nat)
    requires HaveOutputs(outs) && r.output.Some?
    ensures HaveOutputs(outs + [r]) && OutputsSize(outs + [r], bytes) == OutputsSize(outs, bytes) + bytes(r.output.value)
    ensures (outs + [r])[..|outs|] == outs
  {
    assert (outs + [r])[..|outs|] == outs;
  }

  datatype Aspect = Outputs | Thrift | Count

  predicate TallyHolds(aspect: Aspect, step: StepInput, order: seq<nat>, ir: Ir, over: nat, bytes: string -> nat, a: Progress, b: Progress,
                       outs: seq<ToolResult>, freed: nat)
  {
    match aspect
    case Outputs => TakesOut(ir.toolResults, outs, a.fit.omitted, b.fit.omitted)
    case Thrift =>
      Indices(order, |step.recalled|) && a.next <= b.next <= |order| && HaveOutputs(outs) && Spares(step, order, ir, over, bytes, a, b, outs)
    case Count =>
      Indices(order, |step.recalled|) && a.next <= b.next <= |order| && HaveOutputs(outs)
      && if b.fit.window == a.fit.window then freed == Freed(step, order, bytes, a, b, outs) else freed > over
  }

  /** A round under way: from `a` it has got to `b`, leaving out `outs`, and `freed` is what it counts as given up. */
  ghost predicate Tally(step: StepInput, order: seq<nat>, ir: Ir, over: nat, bytes: string -> nat, a: Progress, b: Progress, outs: seq<ToolResult>,
                        freed: nat)
  {
    forall aspect :: TallyHolds(aspect, step, order, ir, over, bytes, a, b, outs, freed)
  }

  lemma TallyIs(step: StepInput, order: seq<nat>, ir: Ir, over: nat, bytes: string -> nat, a: Progress, b: Progress, outs: seq<ToolResult>,
                freed: nat)
    requires Tally(step, order, ir, over, bytes, a, b, outs, freed)
    ensures Indices(order, |step.recalled|) && a.next <= b.next <= |order| && TakesOut(ir.toolResults, outs, a.fit.omitted, b.fit.omitted)
    ensures Spares(step, order, ir, over, bytes, a, b, outs)
    ensures if b.fit.window == a.fit.window then freed == Freed(step, order, bytes, a, b, outs) else freed > over
  {
    assert TallyHolds(Outputs, step, order, ir, over, bytes, a, b, outs, freed) && TallyHolds(Thrift, step, order, ir, over, bytes, a, b, outs, freed);
    assert TallyHolds(Count, step, order, ir, over, bytes, a, b, outs, freed);
  }

  lemma TallyStarts(step: StepInput, order: seq<nat>, ir: Ir, over: nat, bytes: string -> nat, a: Progress)
    requires Indices(order, |step.recalled|) && a.next <= |order|
    ensures Tally(step, order, ir, over, bytes, a, a, [], 0)
  {
  }

  lemma TallyTurn(step: StepInput, order: seq<nat>, ir: Ir, over: nat, bytes: string -> nat, a: Progress, b: Progress, outs: seq<ToolResult>,
                  freed: nat, c: Progress)
    requires Tally(step, order, ir, over, bytes, a, b, outs, freed) && freed <= over
    requires Indices(order, |step.recalled|) && b.next < |order|
    requires c.next == b.next + 1 && c.fit.omitted == b.fit.omitted && c.fit.window == b.fit.window == a.fit.window
    ensures Tally(step, order, ir, over, bytes, a, c, outs, freed + bytes(step.recalled[order[b.next]].turn.text))
  {
    TallyIs(step, order, ir, over, bytes, a, b, outs, freed);
  }

  lemma TallyOutput(step: StepInput, order: seq<nat>, ir: Ir, over: nat, bytes: string -> nat, a: Progress, b: Progress, outs: seq<ToolResult>,
                    freed: nat, c: Progress, r: ToolResult)
    requires Tally(step, order, ir, over, bytes, a, b, outs, freed) && freed <= over && b.next == |order|
    requires r in ir.toolResults && r.output.Some? && r.call !in b.fit.omitted
    requires c.next == b.next && c.fit.omitted == b.fit.omitted + {r.call} && c.fit.window == b.fit.window == a.fit.window
    ensures Tally(step, order, ir, over, bytes, a, c, outs + [r], freed + bytes(r.output.value))
  {
    TallyIs(step, order, ir, over, bytes, a, b, outs, freed);
    OutputTaken(ir.toolResults, outs, a.fit.omitted, b.fit.omitted, r);
    OneMoreOutput(outs, r, bytes);
  }

  lemma TallyWindow(step: StepInput, order: seq<nat>, ir: Ir, over: nat, bytes: string -> nat, a: Progress, b: Progress, outs: seq<ToolResult>,
                    freed: nat, c: Progress)
    requires Tally(step, order, ir, over, bytes, a, b, outs, freed) && freed <= over && b.next == |order|
    requires AllOmitted(Earliest(ir.toolResults, step.latestRound), b.fit.omitted) && b.fit.window == a.fit.window && ir.recent != []
    requires c.next == b.next && c.fit.omitted == b.fit.omitted && c.fit.window == |ir.recent| - 1 < a.fit.window
    ensures Tally(step, order, ir, over, bytes, a, c, outs, over + 1)
  {
    TallyIs(step, order, ir, over, bytes, a, b, outs, freed);
  }

  lemma TallyEnds(step: StepInput, order: seq<nat>, ir: Ir, over: nat, bytes: string -> nat, a: Progress, b: Progress, outs: seq<ToolResult>,
                  freed: nat, c: Progress)
    requires Tally(step, order, ir, over, bytes, a, b, outs, freed)
    requires c.next == b.next && c.fit == b.fit && (c.exhausted <==> freed <= over) && (freed <= over ==> b.fit.window == a.fit.window)
    ensures Indices(order, |step.recalled|) && a.next <= c.next <= |order| && TakesOut(ir.toolResults, outs, a.fit.omitted, c.fit.omitted)
    ensures GivesUp(step, order, ir, over, bytes, a, c, outs)
  {
    TallyIs(step, order, ir, over, bytes, a, b, outs, freed);
  }

  /** Gives things up until their sizes make up for the excess: turns first, then outputs, then one turn of
      the window. It is exhausted when there is nothing more to give up. `outs` are the outputs it left out. */
  method LeaveOut(step: StepInput, conversationWindow: nat, order: seq<nat>, ir: Ir, over: nat, bytes: string -> nat,
                  next0: nat, fit0: Fit)
    returns (next: nat, fit: Fit, exhausted: bool, ghost outs: seq<ToolResult>)
    requires IsDropOrder(order, step.recalled) && |ir.recent| <= fit0.window
    requires Fitting(step, conversationWindow, order, Earliest(ir.toolResults, step.latestRound), next0, fit0)
    ensures Fitting(step, conversationWindow, order, Earliest(ir.toolResults, step.latestRound), next, fit)
    ensures var outputs := Earliest(ir.toolResults, step.latestRound);
      LessLeft(|order| - next0, |Open(outputs, fit0.omitted)|, fit0.window, |order| - next, |Open(outputs, fit.omitted)|, fit.window)
      || (exhausted && next == next0 && fit == fit0)
    ensures exhausted ==> next == |order| && AllOmitted(Earliest(ir.toolResults, step.latestRound), fit.omitted)
    ensures exhausted ==> fit.window == fit0.window && (fit.window == 0 || ir.recent == [])
    ensures next0 <= next <= |order| && TakesOut(ir.toolResults, outs, fit0.omitted, fit.omitted)
    ensures GivesUp(step, order, ir, over, bytes, Progress(next0, fit0, false), Progress(next, fit, exhausted), outs)
  {
    next, fit, exhausted, outs := next0, fit0, false, [];
    ghost var outputs := Earliest(ir.toolResults, step.latestRound);
    ghost var start := Progress(next0, fit0, false);
    var freed: nat := 0;
    ghost var moved := false;
    TallyStarts(step, order, ir, over, bytes, start);
    while freed <= over
      invariant Fitting(step, conversationWindow, order, outputs, next, fit)
      invariant !exhausted && (freed <= over ==> fit.window == fit0.window)
      invariant !moved ==> freed == 0 && next == next0 && fit == fit0
      invariant moved ==> LessLeft(|order| - next0, |Open(outputs, fit0.omitted)|, fit0.window,
                                   |order| - next, |Open(outputs, fit.omitted)|, fit.window)
      invariant Tally(step, order, ir, over, bytes, start, Progress(next, fit, false), outs, freed)
      decreases |order| - next, |Open(outputs, fit.omitted)|, fit.window
    {
      ghost var before := Progress(next, fit, false);
      if next < |order| {
        DropsTurn(step, conversationWindow, order, outputs, next, fit);
        var index := order[next];
        next := next + 1;
        fit := fit.(kept := fit.kept[index := false]);
        TallyTurn(step, order, ir, over, bytes, start, before, outs, freed, Progress(next, fit, false));
        freed := freed + bytes(step.recalled[index].turn.text);
        moved := true;
        continue;
      }
      ghost var at;
      var earlier;
      earlier, at := FindEarlier(ir.toolResults, step.latestRound, fit.omitted);
      if earlier.Some? {
        OmitsOutput(step, conversationWindow, order, outputs, fit, at, earlier.value.call);
        fit := fit.(omitted := fit.omitted + {earlier.value.call});
        TallyOutput(step, order, ir, over, bytes, start, before, outs, freed, Progress(next, fit, false), earlier.value);
        freed, outs := freed + bytes(earlier.value.output.value), outs + [earlier.value];
        moved := true;
        continue;
      }
      if fit.window > 0 && ir.recent != [] {
        fit := fit.(window := |ir.recent| - 1);
        TallyWindow(step, order, ir, over, bytes, start, before, outs, freed, Progress(next, fit, false));
        freed := over + 1;
        moved := true;
        continue;
      }
      exhausted := true;
      break;
    }
    TallyEnds(step, order, ir, over, bytes, start, Progress(next, fit, false), outs, freed, Progress(next, fit, exhausted));
  }

  /** What a step's IR is fitted for and from. */
  datatype Setting = Setting(db: Db, run: RunId, task: NodeId, tools: seq<string>, step: StepInput, window: nat,
                             size: Ir -> nat, bytes: string -> nat, note: string -> string)

  predicate Within(s: Setting, p: Progress) { |p.fit.kept| == |s.step.recalled| && p.next <= |s.step.recalled| }

  /** The IR a fit gives. */
  function IrOf(s: Setting, p: Progress): Result<Ir, CompileError>
    requires Within(s, p)
  {
    Fitted(s.db, s.run, s.task, s.tools, s.step, p.fit, s.note)
  }

  /** From `a` one round leads to `b`: the IR compiled before it is over the budget, and the round gives up no more than
      it must. */
  ghost predicate Round(s: Setting, a: Progress, b: Progress) {
    Within(s, a) && Within(s, b) && !a.exhausted && a.next <= b.next && IrOf(s, a).Ok? && Over(s.step, s.size(IrOf(s, a).value))
    && exists outs :: TakesOut(IrOf(s, a).value.toolResults, outs, a.fit.omitted, b.fit.omitted) && Suffices(s, a, b, outs)
  }

  ghost predicate Suffices(s: Setting, a: Progress, b: Progress, outs: seq<ToolResult>)
    requires Within(s, a) && Within(s, b) && a.next <= b.next && IrOf(s, a).Ok? && HaveOutputs(outs)
  {
    var ir := IrOf(s, a).value;
    Over(s.step, s.size(ir))
    && GivesUp(s.step, DropOrder(s.step.recalled), ir, s.size(ir) - s.step.budget.value, s.bytes, a, b, outs)
  }

  predicate InProgress(s: Setting, p: Progress) {
    Within(s, p)
    && Fitting(s.step, s.window, DropOrder(s.step.recalled), EarlierOutputs(s.db, s.run, s.step.latestRound), p.next, p.fit)
  }

  datatype Side = Beginning | States | Steps

  ghost predicate RoundsHold(side: Side, s: Setting, ps: seq<Progress>)
    requires ps != []
  {
    match side
    case Beginning => ps[0] == Progress(0, Whole(s.step, s.window), false)
    case States => forall i | 0 <= i < |ps| :: InProgress(s, ps[i])
    case Steps => forall i | 0 <= i < |ps| - 1 :: Round(s, ps[i], ps[i + 1])
  }

  /** The rounds of a fit: it begins with everything, and each round leads to the next. */
  ghost predicate Rounds(s: Setting, ps: seq<Progress>) { ps != [] && forall side :: RoundsHold(side, s, ps) }

  lemma RoundIs(s: Setting, ps: seq<Progress>, i: nat)
    requires Rounds(s, ps) && i < |ps| - 1
    ensures Round(s, ps[i], ps[i + 1])
  {
    assert RoundsHold(Steps, s, ps);
  }

  lemma StateIs(s: Setting, ps: seq<Progress>, i: nat)
    requires Rounds(s, ps) && i < |ps|
    ensures InProgress(s, ps[i])
  {
    assert RoundsHold(States, s, ps);
  }

  lemma BeginsWhole(s: Setting, ps: seq<Progress>)
    requires Rounds(s, ps)
    ensures ps[0] == Progress(0, Whole(s.step, s.window), false)
  {
    assert RoundsHold(Beginning, s, ps);
  }

  lemma NoRoundYet(s: Setting)
    ensures var p := Progress(0, Whole(s.step, s.window), false); Rounds(s, [p]) && InProgress(s, p)
  {
  }

  lemma StateAdded(s: Setting, ps: seq<Progress>, b: Progress)
    requires Rounds(s, ps) && InProgress(s, b)
    ensures RoundsHold(States, s, ps + [b])
  {
    var more := ps + [b];
    forall i | 0 <= i < |more| ensures InProgress(s, more[i]) {
      if i < |ps| { StateIs(s, ps, i); }
    }
  }

  lemma StepAdded(s: Setting, ps: seq<Progress>, b: Progress)
    requires Rounds(s, ps) && Round(s, ps[|ps| - 1], b)
    ensures RoundsHold(Steps, s, ps + [b])
  {
    var more := ps + [b];
    forall i | 0 <= i < |more| - 1 ensures Round(s, more[i], more[i + 1]) {
      if i < |ps| - 1 { RoundIs(s, ps, i); }
    }
  }

  lemma RoundAdded(s: Setting, ps: seq<Progress>, b: Progress)
    requires Rounds(s, ps) && InProgress(s, b) && Round(s, ps[|ps| - 1], b)
    ensures Rounds(s, ps + [b])
  {
    BeginsWhole(s, ps);
    StateAdded(s, ps, b);
    StepAdded(s, ps, b);
  }

  lemma RoundNext(s: Setting, ps: seq<Progress>, a: Progress, b: Progress, ir: Ir, outs: seq<ToolResult>)
    requires Rounds(s, ps) && ps[|ps| - 1] == a && InProgress(s, b) && Within(s, a) && !a.exhausted && a.next <= b.next
    requires IrOf(s, a) == Ok(ir) && Over(s.step, s.size(ir)) && TakesOut(ir.toolResults, outs, a.fit.omitted, b.fit.omitted)
    requires GivesUp(s.step, DropOrder(s.step.recalled), ir, s.size(ir) - s.step.budget.value, s.bytes, a, b, outs)
    ensures Rounds(s, ps + [b])
  {
    assert Suffices(s, a, b, outs);
    RoundAdded(s, ps, b);
  }

  /** `ir` is what the rounds `ps` come to: what is left out is left out in order of priority, and the IR is over the budget only
      if nothing more can be left out. */
  ghost predicate Fits(s: Setting, ps: seq<Progress>, ir: Ir) {
    Rounds(s, ps) && Within(s, ps[|ps| - 1]) && s.run in s.db.runs && IrOf(s, ps[|ps| - 1]) == Ok(ir)
    && InPriority(s.step, s.window, EarlierOutputs(s.db, s.run, s.step.latestRound), ps[|ps| - 1].fit)
    && (Over(s.step, s.size(ir)) ==>
          ps[|ps| - 1].exhausted && NothingLeft(s.db, s.run, EarlierOutputs(s.db, s.run, s.step.latestRound), ps[|ps| - 1].fit))
  }

  lemma FitFound(s: Setting, ps: seq<Progress>, p: Progress, ir: Ir)
    requires Rounds(s, ps) && ps[|ps| - 1] == p && InProgress(s, p) && s.run in s.db.runs && IrOf(s, p) == Ok(ir)
    requires p.exhausted ==>
      p.next == |s.step.recalled| && AllOmitted(EarlierOutputs(s.db, s.run, s.step.latestRound), p.fit.omitted)
      && (p.fit.window == 0 || RecentOutcomes(s.db, s.run, p.fit.window) == [])
    requires Over(s.step, s.size(ir)) ==> p.exhausted
    ensures Fits(s, ps, ir)
  {
    var order := DropOrder(s.step.recalled);
    FittingInPriority(s.step, s.window, order, EarlierOutputs(s.db, s.run, s.step.latestRound), p.next, p.fit);
    if p.exhausted {
      AllDropped(s.step, order, p.fit);
    }
  }

  /** Compiles the step's IR, leaving out what it must to get under the budget, and records it. It
      always ends; it succeeds exactly when the IR compiles and the run is running; what it sends is
      under the budget unless nothing more can be left out; nothing is left out when everything
      fits; and no round leaves out more than it must. */
  method CompileIr(db: Db, run: RunId, task: NodeId, tools: seq<string>, step: StepInput, conversationWindow: nat,
                   size: Ir -> nat, bytes: string -> nat, note: string -> string)
    returns (r: Result<(Db, Ir), CompileError>, ghost ps: seq<Progress>)
    ensures r.Ok? <==> Fitted(db, run, task, tools, step, Whole(step, conversationWindow), note).Ok? && IsRunning(db, run)
    ensures r.Ok? ==> Fits(Setting(db, run, task, tools, step, conversationWindow, size, bytes, note), ps, r.value.1)
    ensures r.Ok? ==> AppendEvent(db, run, IrCompiled(r.value.1)) == Ok(r.value.0)
  {
    var order := DropOrder(step.recalled);
    var next, exhausted := 0, false;
    var current := Whole(step, conversationWindow);
    ghost var outputs := EarlierOutputs(db, run, step.latestRound);
    ghost var s := Setting(db, run, task, tools, step, conversationWindow, size, bytes, note);
    ps := [Progress(0, current, false)];
    NoRoundYet(s);
    while true
      invariant 0 <= next && Fitting(step, conversationWindow, order, outputs, next, current)
      invariant exhausted ==> next == |order| && AllOmitted(outputs, current.omitted)
      invariant exhausted ==> run in db.runs && (current.window == 0 || RecentOutcomes(db, run, current.window) == [])
      invariant Rounds(s, ps) && ps[|ps| - 1] == Progress(next, current, exhausted)
      decreases |order| - next, |Open(outputs, current.omitted)|, current.window, if exhausted then 0 else 1
    {
      var compiled := CompileWith(db, run, task, tools, HistoryOf(step, current), note);
      CompilesAlike(db, run, task, tools, HistoryOf(step, current), HistoryOf(step, Whole(step, conversationWindow)), note);
      if compiled.Err? {
        return Err(compiled.error), ps;
      }
      var ir := compiled.value;
      var over := if step.budget.Some? && size(ir) >= step.budget.value then Some(size(ir) - step.budget.value) else None;
      if over.None? || exhausted {
        FitFound(s, ps, Progress(next, current, exhausted), ir);
        var appended := AppendEvent(db, run, IrCompiled(ir));
        return if appended.Err? then Err(StoreFailed(appended.error)) else Ok((appended.value, ir)), ps;
      }
      OutputsOfIr(db, run, task, tools, step, current, note);
      RecentAtMost(db, run, current.window);
      ghost var outs, before := [], Progress(next, current, false);
      next, current, exhausted, outs := LeaveOut(step, conversationWindow, order, ir, over.value, bytes, next, current);
      RoundNext(s, ps, before, Progress(next, current, exhausted), ir, outs);
      ps := ps + [Progress(next, current, exhausted)];
    }
  }

  lemma {:induction false} EarliestNotLatest(results: seq<ToolResult>, latestRound: set<CallId>)
    ensures forall i | 0 <= i < |Earliest(results, latestRound)| :: Earliest(results, latestRound)[i] !in latestRound
  {
    if results != [] {
      EarliestNotLatest(results[..|results| - 1], latestRound);
    }
  }

  /** A fitted IR carries the step's review and its kept turns, and the results of the run's history, the outputs of the latest round among
      them, unless the step itself left them out. */
  lemma FitCarries(s: Setting, ps: seq<Progress>, ir: Ir)
    requires Fits(s, ps, ir)
    ensures ir.task == s.task && ir.tools == s.tools && ir.review == s.step.review
    ensures var fit := ps[|ps| - 1].fit;
      ir.recalled == KeptTurns(s.step.recalled, fit.kept) && ir.toolResults == Results(DataOf(Log(s.db.events, s.run)), fit.omitted, s.note)
      && forall c | c in s.step.latestRound && c in fit.omitted :: c in s.step.omitted
  {
    EarliestNotLatest(Results(DataOf(Log(s.db.events, s.run)), {}, x => x), s.step.latestRound);
  }

  // ---- What was given up was too much to send ----

  lemma {:induction false} TurnsSizeGrows(s: seq<Scored>, order: seq<nat>, start: nat, end: nat, further: nat, bytes: string -> nat)
    requires Indices(order, |s|) && start <= end <= further <= |order|
    ensures TurnsSize(s, order, start, end, bytes) <= TurnsSize(s, order, start, further, bytes)
    decreases further
  {
    if end < further {
      TurnsSizeGrows(s, order, start, end, further - 1, bytes);
    }
  }

  lemma {:induction false} OutputsSizeGrows(outs: seq<ToolResult>, j: nat, bytes: string -> nat)
    requires HaveOutputs(outs) && j <= |outs|
    ensures OutputsSize(outs[..j], bytes) <= OutputsSize(outs, bytes)
    decreases |outs|
  {
    if j < |outs| {
      assert outs[..|outs| - 1][..j] == outs[..j];
      OutputsSizeGrows(outs[..|outs| - 1], j, bytes);
    } else {
      assert outs[..j] == outs;
    }
  }

  /** The bytes an IR is over the budget. */
  function Excess(s: Setting, p: Progress): nat
    requires Within(s, p) && IrOf(s, p).Ok? && Over(s.step, s.size(IrOf(s, p).value))
  {
    s.size(IrOf(s, p).value) - s.step.budget.value
  }

  ghost predicate TooLarge(s: Setting, p: Progress) { Within(s, p) && IrOf(s, p).Ok? && Over(s.step, s.size(IrOf(s, p).value)) }

  lemma RoundGivesUp(s: Setting, a: Progress, b: Progress) returns (outs: seq<ToolResult>)
    requires Round(s, a, b)
    ensures TooLarge(s, a) && Within(s, b) && a.next <= b.next && TakesOut(IrOf(s, a).value.toolResults, outs, a.fit.omitted, b.fit.omitted)
    ensures Spares(s.step, DropOrder(s.step.recalled), IrOf(s, a).value, Excess(s, a), s.bytes, a, b, outs)
  {
    outs :| TakesOut(IrOf(s, a).value.toolResults, outs, a.fit.omitted, b.fit.omitted) && Suffices(s, a, b, outs);
  }

  /** The round that passes place `at` in the order. */
  lemma {:induction false} RoundAt(s: Setting, ps: seq<Progress>, last: nat, at: nat) returns (i: nat)
    requires Rounds(s, ps) && last < |ps| && at < ps[last].next
    ensures i < last && ps[i].next <= at < ps[i + 1].next
    decreases last
  {
    BeginsWhole(s, ps);
    if ps[last - 1].next <= at {
      i := last - 1;
    } else {
      i := RoundAt(s, ps, last - 1, at);
    }
  }

  lemma PlaceOf(s: Setting, p: Progress, k: nat) returns (at: nat)
    requires InProgress(s, p) && k < |s.step.recalled| && !p.fit.kept[k]
    ensures at < p.next && DropOrder(s.step.recalled)[at] == k
  {
    var order := DropOrder(s.step.recalled);
    assert k in order;
    at :| 0 <= at < |order| && order[at] == k;
  }

  lemma RoundSparesTurn(s: Setting, a: Progress, b: Progress, at: nat)
    requires Round(s, a, b) && a.next <= at < b.next
    ensures TooLarge(s, a) && at < |s.step.recalled|
    ensures TurnsSize(s.step.recalled, DropOrder(s.step.recalled), a.next, at, s.bytes) <= Excess(s, a)
  {
    var outs := RoundGivesUp(s, a, b);
    TurnsSizeGrows(s.step.recalled, DropOrder(s.step.recalled), a.next, at, b.next - 1, s.bytes);
  }

  /** A recalled turn is left out only because the IR compiled just before was over the budget by no less than what that
      round had already given up. */
  lemma DroppedOnlyIfOver(s: Setting, ps: seq<Progress>, k: nat) returns (i: nat, at: nat)
    requires Rounds(s, ps) && k < |s.step.recalled| && Within(s, ps[|ps| - 1]) && !ps[|ps| - 1].fit.kept[k]
    ensures i < |ps| - 1 && TooLarge(s, ps[i])
    ensures ps[i].next <= at < |s.step.recalled| && DropOrder(s.step.recalled)[at] == k
    ensures TurnsSize(s.step.recalled, DropOrder(s.step.recalled), ps[i].next, at, s.bytes) <= Excess(s, ps[i])
  {
    StateIs(s, ps, |ps| - 1);
    at := PlaceOf(s, ps[|ps| - 1], k);
    i := RoundAt(s, ps, |ps| - 1, at);
    RoundIs(s, ps, i);
    RoundSparesTurn(s, ps[i], ps[i + 1], at);
  }

  lemma {:induction false} RoundOmitting(s: Setting, ps: seq<Progress>, last: nat, c: CallId) returns (i: nat)
    requires Rounds(s, ps) && last < |ps| && c in ps[last].fit.omitted && c !in s.step.omitted
    ensures i < last && c !in ps[i].fit.omitted && c in ps[i + 1].fit.omitted
    decreases last
  {
    BeginsWhole(s, ps);
    if c !in ps[last - 1].fit.omitted {
      i := last - 1;
    } else {
      i := RoundOmitting(s, ps, last - 1, c);
    }
  }

  lemma RoundSparesOutput(s: Setting, a: Progress, b: Progress, c: CallId) returns (outs: seq<ToolResult>, j: nat)
    requires Round(s, a, b) && c in b.fit.omitted && c !in a.fit.omitted
    ensures TooLarge(s, a) && TakesOut(IrOf(s, a).value.toolResults, outs, a.fit.omitted, b.fit.omitted) && j < |outs| && outs[j].call == c
    ensures a.next <= |s.step.recalled|
    ensures TurnsSize(s.step.recalled, DropOrder(s.step.recalled), a.next, |s.step.recalled|, s.bytes) + OutputsSize(outs[..j], s.bytes)
      <= Excess(s, a)
  {
    outs := RoundGivesUp(s, a, b);
    j := TakenAt(outs, c);
    assert outs[..|outs| - 1][..j] == outs[..j];
    OutputsSizeGrows(outs[..|outs| - 1], j, s.bytes);
  }

  /** An output is left out only because all the recalled turns left, and the outputs left out before it in that round,
      together did not make up for what the IR was over. */
  lemma OmittedOnlyIfOver(s: Setting, ps: seq<Progress>, c: CallId) returns (i: nat, outs: seq<ToolResult>, j: nat)
    requires Rounds(s, ps) && c in ps[|ps| - 1].fit.omitted && c !in s.step.omitted
    ensures i < |ps| - 1 && TooLarge(s, ps[i]) && TakesOut(IrOf(s, ps[i]).value.toolResults, outs, ps[i].fit.omitted, ps[i + 1].fit.omitted)
    ensures j < |outs| && outs[j].call == c
    ensures TurnsSize(s.step.recalled, DropOrder(s.step.recalled), ps[i].next, |s.step.recalled|, s.bytes) + OutputsSize(outs[..j], s.bytes)
      <= Excess(s, ps[i])
  {
    i := RoundOmitting(s, ps, |ps| - 1, c);
    RoundIs(s, ps, i);
    outs, j := RoundSparesOutput(s, ps[i], ps[i + 1], c);
  }

  lemma TakenAt(outs: seq<ToolResult>, c: CallId) returns (j: nat)
    requires c in CallSet(outs)
    ensures j < |outs| && outs[j].call == c
  {
    var r :| r in outs && r.call == c;
    j :| 0 <= j < |outs| && outs[j] == r;
  }

  lemma {:induction false} RoundNarrowing(s: Setting, ps: seq<Progress>, last: nat) returns (i: nat)
    requires Rounds(s, ps) && last < |ps| && ps[last].fit.window != s.window
    ensures i < last && ps[i].fit.window != ps[i + 1].fit.window
    decreases last
  {
    BeginsWhole(s, ps);
    if ps[last - 1].fit.window != ps[last].fit.window {
      i := last - 1;
    } else {
      i := RoundNarrowing(s, ps, last - 1);
    }
  }

  /** And the window is narrowed only because everything else left did not make up for what the IR was over. */
  lemma NarrowedOnlyIfOver(s: Setting, ps: seq<Progress>) returns (i: nat, outs: seq<ToolResult>)
    requires Rounds(s, ps) && ps[|ps| - 1].fit.window != s.window
    ensures i < |ps| - 1 && TooLarge(s, ps[i]) && TakesOut(IrOf(s, ps[i]).value.toolResults, outs, ps[i].fit.omitted, ps[i + 1].fit.omitted)
    ensures AllOmitted(Earliest(IrOf(s, ps[i]).value.toolResults, s.step.latestRound), ps[i + 1].fit.omitted)
    ensures ps[i + 1].fit.window == |IrOf(s, ps[i]).value.recent| - 1
    ensures TurnsSize(s.step.recalled, DropOrder(s.step.recalled), ps[i].next, |s.step.recalled|, s.bytes) + OutputsSize(outs, s.bytes)
      <= Excess(s, ps[i])
  {
    i := RoundNarrowing(s, ps, |ps| - 1);
    RoundIs(s, ps, i);
    outs := RoundGivesUp(s, ps[i], ps[i + 1]);
  }

  // ---- What a fitted IR carries ----

  function RecalledRuns(turns: seq<RecalledTurn>): (ids: seq<RunId>)
    ensures |ids| == |turns|
  {
    seq(|turns|, i requires 0 <= i < |turns| => turns[i].run)
  }

  function OutcomeRuns(turns: seq<TurnOutcome>): (ids: seq<RunId>)
    ensures |ids| == |turns|
  {
    seq(|turns|, i requires 0 <= i < |turns| => turns[i].run)
  }

  lemma KeptRunsStep(s: seq<Scored>, kept: seq<bool>)
    requires s != [] && |kept| == |s|
    ensures var k := |s| - 1;
      RecalledRuns(KeptTurns(s, kept))
        == RecalledRuns(KeptTurns(s[..k], kept[..k])) + if kept[k] then [s[k].turn.run] else []
  {
  }

  /** Whatever is left out, the kept turns stay in the order they were recalled in: exactly the kept
      ones, oldest first. */
  lemma {:induction false} KeptStayInOrder(runs: map<RunId, Run>, s: seq<Scored>, kept: seq<bool>)
    requires |kept| == |s| && OldestFirst(runs, ScoredRuns(s))
    ensures OldestFirst(runs, RecalledRuns(KeptTurns(s, kept)))
    ensures forall r :: r in RecalledRuns(KeptTurns(s, kept)) <==> exists i :: 0 <= i < |s| && kept[i] && ScoredRuns(s)[i] == r
    decreases |s|
  {
    if s != [] {
      var k := |s| - 1;
      assert ScoredRuns(s[..k]) == ScoredRuns(s)[..k];
      KeptStayInOrder(runs, s[..k], kept[..k]);
      KeptRunsStep(s, kept);
      var rest := RecalledRuns(KeptTurns(s[..k], kept[..k]));
      forall r | r in rest ensures exists i :: 0 <= i < k && kept[i] && ScoredRuns(s)[i] == r {
        var i :| 0 <= i < k && kept[..k][i] && ScoredRuns(s[..k])[i] == r;
        assert kept[i] && ScoredRuns(s)[i] == r;
      }
      forall i | 0 <= i < k && kept[i] ensures ScoredRuns(s)[i] in rest {
        assert kept[..k][i] && ScoredRuns(s[..k])[i] == ScoredRuns(s)[i];
      }
      if kept[k] {
        OrderAppend(runs, rest, ScoredRuns(s)[k]);
      }
    }
  }

  /** The turns an IR recalls are the kept ones, whole. */
  lemma {:induction false} KeptTurnsAre(s: seq<Scored>, kept: seq<bool>, t: RecalledTurn)
    requires |kept| == |s|
    ensures t in KeptTurns(s, kept) <==> exists i :: 0 <= i < |s| && kept[i] && s[i].turn == t
    decreases |s|
  {
    if s != [] {
      var k := |s| - 1;
      KeptTurnsAre(s[..k], kept[..k], t);
      if t in KeptTurns(s[..k], kept[..k]) {
        var i :| 0 <= i < k && kept[..k][i] && s[..k][i].turn == t;
        assert kept[i] && s[i].turn == t;
      }
      if i :| 0 <= i < |s| && kept[i] && s[i].turn == t && i < k {
        assert kept[..k][i] && s[..k][i].turn == t;
      }
    }
  }

  lemma OrderAppend(runs: map<RunId, Run>, ids: seq<RunId>, r: RunId)
    requires OldestFirst(runs, ids) && r in runs
    requires forall x | x in ids :: x in runs && Order.Less(RunKey(runs, x), RunKey(runs, r))
    ensures OldestFirst(runs, ids + [r])
  {
  }

  lemma {:induction false} AllKept(s: seq<Scored>, kept: seq<bool>)
    requires |kept| == |s| && forall i | 0 <= i < |s| :: kept[i]
    ensures RecalledRuns(KeptTurns(s, kept)) == ScoredRuns(s)
    decreases |s|
  {
    if s != [] {
      AllKept(s[..|s| - 1], kept[..|s| - 1]);
      KeptRunsStep(s, kept);
    }
  }

  predicate Different(ids: seq<RunId>) { forall i, j | 0 <= i < j < |ids| :: ids[i] != ids[j] }

  lemma DisjointJoin(a: seq<RunId>, b: seq<RunId>, runs: map<RunId, Run>)
    requires OldestFirst(runs, a) && OldestFirst(runs, b) && Set(a) !! Set(b)
    ensures Different(a + b) && Set(a + b) == Set(a) + Set(b)
  {
    forall i, j | 0 <= i < j < |a + b| ensures (a + b)[i] != (a + b)[j] {
      if i < |a| <= j {
        assert a[i] in Set(a) && b[j - |a|] in Set(b);
      }
    }
  }

  lemma ToldRuns(db: Db, turns: seq<RunId>, told: seq<TurnOutcome>)
    requires TellsEach(db, turns, told)
    ensures OutcomeRuns(told) == turns
  {
  }

  lemma WholeCarries(db: Db, run: RunId, task: NodeId, tools: seq<string>, step: StepInput, window: nat, note: string -> string)
    requires Invariants.Inv(db) && IsRunning(db, run)
    requires Fitted(db, run, task, tools, step, Whole(step, window), note).Ok?
    ensures var ir := Fitted(db, run, task, tools, step, Whole(step, window), note).value;
      OutcomeRuns(ir.recent) == Earlier(db.runs, run, window) && RecalledRuns(ir.recalled) == ScoredRuns(step.recalled)
  {
    RecentTurnsTold(db, run, window);
    ToldRuns(db, Earlier(db.runs, run, window), RecentOutcomes(db, run, window));
    AllKept(step.recalled, Whole(step, window).kept);
  }

  lemma EveryOtherTurn(db: Db, run: RunId, window: nat)
    requires Invariants.Inv(db) && IsRunning(db, run)
    ensures var turns := Earlier(db.runs, run, window) + Candidates(db.runs, run, window);
      Different(turns) && Set(turns) == ProjectRuns(db.runs, db.runs[run].project) - {run}
  {
    TurnsPartition(db, run, window);
    DisjointJoin(Earlier(db.runs, run, window), Candidates(db.runs, run, window), db.runs);
  }

  /** The IR's turns, told or recalled, are the project's other runs, each once. */
  predicate CarriesAllOnce(db: Db, run: RunId, ir: Ir)
    requires run in db.runs
  {
    var turns := OutcomeRuns(ir.recent) + RecalledRuns(ir.recalled);
    Different(turns) && Set(turns) == ProjectRuns(db.runs, db.runs[run].project) - {run}
  }

  lemma WholeCarriesAll(db: Db, run: RunId, task: NodeId, tools: seq<string>, step: StepInput, window: nat,
                        text: seq<Event> -> string, note: string -> string)
    requires Invariants.Inv(db) && IsRunning(db, run)
    requires step.recalled == RecallEverything(Told(db, Candidates(db.runs, run, window), text))
    requires Fitted(db, run, task, tools, step, Whole(step, window), note).Ok?
    ensures CarriesAllOnce(db, run, Fitted(db, run, task, tools, step, Whole(step, window), note).value)
  {
    WholeCarries(db, run, task, tools, step, window, note);
    assert ScoredRuns(step.recalled) == Candidates(db.runs, run, window);
    EveryOtherTurn(db, run, window);
  }

  /** With no budget to keep to, nothing is left out. */
  lemma NoRounds(s: Setting, ps: seq<Progress>)
    requires Rounds(s, ps) && s.step.budget.None?
    ensures ps == [Progress(0, Whole(s.step, s.window), false)]
  {
    BeginsWhole(s, ps);
    if |ps| > 1 {
      RoundIs(s, ps, 0);
    }
  }

  /** Asked for everything, with no budget to keep to, the IR carries each finished turn of the project
      exactly once: the recent ones told, every other one recalled whole. */
  lemma EverythingCarried(s: Setting, ps: seq<Progress>, text: seq<Event> -> string)
    requires Invariants.Inv(s.db) && IsRunning(s.db, s.run) && s.step.budget.None?
    requires s.step.recalled == RecallEverything(Told(s.db, Candidates(s.db.runs, s.run, s.window), text))
    requires Rounds(s, ps) && Within(s, ps[|ps| - 1]) && IrOf(s, ps[|ps| - 1]).Ok?
    ensures CarriesAllOnce(s.db, s.run, IrOf(s, ps[|ps| - 1]).value)
  {
    NoRounds(s, ps);
    WholeCarriesAll(s.db, s.run, s.task, s.tools, s.step, s.window, text, s.note);
  }
}
