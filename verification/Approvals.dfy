/** Approving tool calls: the policy that decides first, and the waits for a person, answered, timed
    out or dropped in any interleaving. */
module Approvals {
  import opened Common
  import opened Records

  // ---- Policies ----

  datatype Policy = AllowIt | AskFirst | Off

  function Strictness(p: Policy): nat { match p case AllowIt => 0 case AskFirst => 1 case Off => 2 }

  /** A tool of the same server that a call's arguments name, and its policy. */
  datatype Named = Named(name: string, policy: Policy)

  predicate IsStrictest(p: Policy, own: Policy, named: seq<Named>) {
    Strictness(own) <= Strictness(p) && (forall i | 0 <= i < |named| :: Strictness(named[i].policy) <= Strictness(p))
    && (p == own || exists i :: 0 <= i < |named| && named[i].policy == p)
  }

  function AskingOf(named: seq<Named>): seq<string> {
    if named == [] then []
    else
      var rest := AskingOf(named[..|named| - 1]);
      if named[|named| - 1].policy == AskFirst then rest + [named[|named| - 1].name] else rest
  }

  predicate IsFirstOff(off: Option<string>, named: seq<Named>) {
    match off
    case None => forall i | 0 <= i < |named| :: named[i].policy != Off
    case Some(name) =>
      exists i :: 0 <= i < |named| && named[i] == Named(name, Off) && forall k | 0 <= k < i :: named[k].policy != Off
  }

  /** A call is judged by the strictest policy of all the tools it involves; which of the named ones is the
      first turned off, and which ask, is kept for the explanation. */
  method EffectivePolicy(own: Policy, named: seq<Named>) returns (policy: Policy, off: Option<string>, asking: seq<string>)
    ensures IsStrictest(policy, own, named) && IsFirstOff(off, named) && asking == AskingOf(named)
  {
    policy, off, asking := own, None, [];
    for i := 0 to |named|
      invariant IsStrictest(policy, own, named[..i]) && IsFirstOff(off, named[..i]) && asking == AskingOf(named[..i])
    {
      assert named[..i + 1][..i] == named[..i];
      var p := named[i].policy;
      FirstOffNext(off, named, i);
      StrictestNext(policy, own, named, i);
      if p == Off && off.None? {
        off := Some(named[i].name);
      } else if p == AskFirst {
        asking := asking + [named[i].name];
      }
      if Strictness(p) > Strictness(policy) { policy := p; }
    }
    assert named[..|named|] == named;
  }

  lemma FirstOffNext(off: Option<string>, named: seq<Named>, i: nat)
    requires i < |named| && IsFirstOff(off, named[..i])
    ensures IsFirstOff(if off.None? && named[i].policy == Off then Some(named[i].name) else off, named[..i + 1])
  {
    if off.Some? {
      var k :| 0 <= k < i && named[..i][k] == Named(off.value, Off) && forall j | 0 <= j < k :: named[..i][j].policy != Off;
      assert named[..i + 1][k] == Named(off.value, Off);
    } else if named[i].policy == Off {
      assert named[..i + 1][i] == Named(named[i].name, Off);
    }
  }

  lemma StrictestNext(policy: Policy, own: Policy, named: seq<Named>, i: nat)
    requires i < |named| && IsStrictest(policy, own, named[..i])
    ensures IsStrictest(if Strictness(named[i].policy) > Strictness(policy) then named[i].policy else policy, own, named[..i + 1])
  {
    var next := if Strictness(named[i].policy) > Strictness(policy) then named[i].policy else policy;
    var more := named[..i + 1];
    forall k | 0 <= k < |more| ensures Strictness(more[k].policy) <= Strictness(next) {
      if k < i { assert more[k] == named[..i][k]; }
    }
    if next != own {
      if next == named[i].policy {
        assert named[..i + 1][i].policy == next;
      } else {
        var k :| 0 <= k < i && named[..i][k].policy == next;
        assert named[..i + 1][k].policy == next;
      }
    }
  }

  /** The tools that ask, in order: those of a part and then those of the rest. */
  lemma {:induction false} AskingSplit(a: seq<Named>, b: seq<Named>)
    ensures AskingOf(a + b) == AskingOf(a) + AskingOf(b)
    decreases |b|
  {
    if b == [] {
      assert a + b == a;
    } else {
      assert (a + b)[..|a + b| - 1] == a + b[..|b| - 1];
      AskingSplit(a, b[..|b| - 1]);
    }
  }

  lemma {:induction false} AskingAre(named: seq<Named>, name: string)
    ensures name in AskingOf(named) <==> Named(name, AskFirst) in named
  {
    if named != [] {
      AskingAre(named[..|named| - 1], name);
      assert named == named[..|named| - 1] + [named[|named| - 1]];
    }
  }

  // ---- What a decision sees, and what it decides alone ----

  /** What a call is decided by: its own tool's policy, those of the named tools, and any concern of the guard. */
  datatype Ask = Ask(own: Policy, named: seq<Named>, concern: Option<string>)

  datatype Verdict = Allowed(decider: Decider) | Denied(decider: Decider)

  predicate AllAllow(ask: Ask) {
    ask.own == AllowIt && forall i | 0 <= i < |ask.named| :: ask.named[i].policy == AllowIt
  }

  predicate SomeOff(ask: Ask) { ask.own == Off || exists i :: 0 <= i < |ask.named| && ask.named[i].policy == Off }

  /** The decision policies make without asking anyone, if they do. */
  method DecideAlone(ask: Ask, interactive: bool) returns (r: Option<Verdict>)
    ensures r == Alone(ask, interactive)
  {
    var policy, off, asking := EffectivePolicy(ask.own, ask.named);
    AskingNone(ask.named);
    if policy == Off { return Some(Denied(ByPolicy)); }
    var concerned := asking != [] || ask.concern.Some?;
    if policy == AllowIt && !concerned { return Some(Allowed(ByPolicy)); }
    if !interactive { return Some(Denied(ByPolicy)); }
    return None;
  }

  /** Off refuses; all allow and no concern allows; otherwise a person decides, if one can be asked. */
  function Alone(ask: Ask, interactive: bool): Option<Verdict> {
    if SomeOff(ask) then Some(Denied(ByPolicy))
    else if AllAllow(ask) && ask.concern.None? then Some(Allowed(ByPolicy))
    else if !interactive then Some(Denied(ByPolicy))
    else None
  }

  /** Policies allow exactly when all do and there is no concern; they refuse when one is off, or when somebody would have to be asked and
      nobody can be; and only otherwise is a person asked. */
  lemma AloneIs(ask: Ask, interactive: bool)
    ensures Alone(ask, interactive) == Some(Allowed(ByPolicy)) <==> AllAllow(ask) && ask.concern.None?
    ensures Alone(ask, interactive) == Some(Denied(ByPolicy)) <==> SomeOff(ask) || (!(AllAllow(ask) && ask.concern.None?) && !interactive)
    ensures Alone(ask, interactive).None? <==> interactive && !SomeOff(ask) && !(AllAllow(ask) && ask.concern.None?)
  {
  }

  lemma {:induction false} AskingNone(named: seq<Named>)
    ensures AskingOf(named) == [] <==> forall i | 0 <= i < |named| :: named[i].policy != AskFirst
  {
    if named != [] {
      AskingNone(named[..|named| - 1]);
      assert forall i | 0 <= i < |named| - 1 :: named[..|named| - 1][i] == named[i];
    }
  }

  // ---- Waits ----

  datatype CallKey = CallKey(run: RunId, call: CallId)

  datatype Reply = Approve | Reject

  /** How a wait ended: answered, nobody answered in time, or dropped with the run. */
  datatype Outcome = Given(reply: Reply) | Unanswered | Abandoned

  /** A decision in progress: it notes why it asks, registers its sender, waits, and, its receiver gone,
      takes itself off both lists. */
  datatype Phase =
    | Asking | Noted | Waiting | Closing(outcome: Outcome) | Unlisted(outcome: Outcome) | Over(verdict: Option<Verdict>)

  type WaitId = nat

  /** `inbox` is what its sender has delivered. */
  datatype Wait = Wait(key: CallKey, ask: Ask, phase: Phase, inbox: Option<Reply>)

  type AnswerId = nat

  /** A person's answer in progress: it has taken a wait's sender off the pending list, or it has been told
      whether it reached a wait, if there was one to take. */
  datatype Answering = Holding(wait: WaitId, reply: Reply) | Told(took: Option<WaitId>, reply: Reply, ok: bool)

  datatype State = State(pending: map<CallKey, WaitId>, escalations: set<CallKey>, waits: map<WaitId, Wait>,
                         answers: map<AnswerId, Answering>)

  const IDLE := State(map[], {}, map[], map[])

  /** One atomic step: what happens under one lock, or between one sender and its receiver. */
  datatype Step =
    | Decide(wait: WaitId, key: CallKey, ask: Ask, interactive: bool)
    | NoteWhy(wait: WaitId)
    | Register(wait: WaitId)
    | Take(answer: AnswerId, key: CallKey, reply: Reply)
    | Send(answer: AnswerId)
    | Receive(wait: WaitId)
    | TimeOut(wait: WaitId)
    | Drop(wait: WaitId)
    | Unlist(wait: WaitId)
    | Forget(wait: WaitId)

  function VerdictOf(outcome: Outcome): Option<Verdict> {
    match outcome
    case Given(Approve) => Some(Allowed(ByUser))
    case Given(Reject) => Some(Denied(ByUser))
    case Unanswered => Some(Denied(ByTimeout))
    case Abandoned => None
  }

  /** Whether the step can be taken: each decision has its own key, and goes through its phases. */
  predicate Enabled(s: State, step: Step) {
    match step
    case Decide(w, key, _, _) => w !in s.waits && forall v | v in s.waits :: s.waits[v].key != key
    case NoteWhy(w) => w in s.waits && s.waits[w].phase == Asking
    case Register(w) => w in s.waits && s.waits[w].phase == Noted
    case Take(a, _, _) => a !in s.answers
    case Send(a) => a in s.answers && s.answers[a].Holding?
    case Receive(w) => w in s.waits && s.waits[w].phase == Waiting && s.waits[w].inbox.Some?
    case TimeOut(w) => w in s.waits && s.waits[w].phase == Waiting
    case Drop(w) => w in s.waits && s.waits[w].phase == Waiting
    case Unlist(w) => w in s.waits && s.waits[w].phase.Closing?
    case Forget(w) => w in s.waits && s.waits[w].phase.Unlisted?
  }

  function To(s: State, w: WaitId, phase: Phase): map<WaitId, Wait>
    requires w in s.waits
  {
    s.waits[w := s.waits[w].(phase := phase)]
  }

  /** Whether a sender's receiver is still there. */
  predicate Receiving(s: State, w: WaitId) { w in s.waits && s.waits[w].phase == Waiting }

  function Next(s: State, step: Step): State
    requires Enabled(s, step)
  {
    match step
    case Decide(w, key, ask, interactive) =>
      var alone := Alone(ask, interactive);
      s.(waits := s.waits[w := Wait(key, ask, if alone.Some? then Over(alone) else Asking, None)])
    case NoteWhy(w) => s.(escalations := s.escalations + {s.waits[w].key}, waits := To(s, w, Noted))
    case Register(w) => s.(pending := s.pending[s.waits[w].key := w], waits := To(s, w, Waiting))
    case Take(a, key, reply) =>
      s.(pending := s.pending - {key},
         answers := s.answers[a := if key in s.pending then Holding(s.pending[key], reply) else Told(None, reply, false)])
    case Send(a) =>
      var (w, reply) := (s.answers[a].wait, s.answers[a].reply);
      s.(waits := if Receiving(s, w) then s.waits[w := s.waits[w].(inbox := Some(reply))] else s.waits,
         answers := s.answers[a := Told(Some(w), reply, Receiving(s, w))])
    case Receive(w) => s.(waits := To(s, w, Closing(Given(s.waits[w].inbox.value))))
    case TimeOut(w) => s.(waits := To(s, w, Closing(Unanswered)))
    case Drop(w) => s.(waits := To(s, w, Closing(Abandoned)))
    case Unlist(w) => s.(pending := s.pending - {s.waits[w].key}, waits := To(s, w, Unlisted(s.waits[w].phase.outcome)))
    case Forget(w) =>
      s.(escalations := s.escalations - {s.waits[w].key}, waits := To(s, w, Over(VerdictOf(s.waits[w].phase.outcome))))
  }

  function After(s: State, step: Step): State { if Enabled(s, step) then Next(s, step) else s }

  /** Any interleaving; a step that cannot be taken is skipped. */
  function Execute(s: State, steps: seq<Step>): State
    decreases |steps|
  {
    if steps == [] then s else After(Execute(s, steps[..|steps| - 1]), steps[|steps| - 1])
  }

  // ---- What every interleaving keeps ----

  predicate Listed(p: Phase) { p.Noted? || p.Waiting? || p.Closing? || p.Unlisted? }

  /** A wait's sender exists from its registration on. */
  predicate Registered(p: Phase) { p.Waiting? || p.Closing? || p.Unlisted? || p.Over? }

  /** A wait by itself: what it was given or decided by a person is what was delivered; what policies
      allowed was all allow, unconcerned; and only a person or policies allow. */
  predicate WaitOk(w: Wait) {
    (w.phase.Closing? && w.phase.outcome.Given? ==> w.inbox == Some(w.phase.outcome.reply))
    && (w.phase.Unlisted? && w.phase.outcome.Given? ==> w.inbox == Some(w.phase.outcome.reply))
    && (w.phase == Over(Some(Allowed(ByUser))) ==> w.inbox == Some(Approve))
    && (w.phase == Over(Some(Denied(ByUser))) ==> w.inbox == Some(Reject))
    && (w.phase == Over(Some(Allowed(ByPolicy))) ==> AllAllow(w.ask) && w.ask.concern.None?)
    && (w.phase.Over? && w.phase.verdict.Some? && w.phase.verdict.value.Allowed? ==>
          w.phase.verdict.value.decider == ByUser || w.phase.verdict.value.decider == ByPolicy)
    && (w.inbox.Some? ==> Registered(w.phase))
    && (SomeOff(w.ask) ==> w.phase == Over(Some(Denied(ByPolicy))))
  }

  predicate WaitsOk(waits: map<WaitId, Wait>) { forall w | w in waits :: WaitOk(waits[w]) }

  predicate DistinctKeys(waits: map<WaitId, Wait>) {
    forall v, w | v in waits && w in waits && v != w :: waits[v].key != waits[w].key
  }

  predicate PendingOk(waits: map<WaitId, Wait>, w: WaitId, key: CallKey) {
    w in waits && waits[w].key == key && waits[w].inbox.None? && (waits[w].phase.Waiting? || waits[w].phase.Closing?)
  }

  predicate PendingsOk(pending: map<CallKey, WaitId>, waits: map<WaitId, Wait>) {
    forall key | key in pending :: PendingOk(waits, pending[key], key)
  }

  predicate NotesOk(escalations: set<CallKey>, waits: map<WaitId, Wait>) {
    forall w | w in waits :: waits[w].key in escalations <==> Listed(waits[w].phase)
  }

  predicate NotesOwned(escalations: set<CallKey>, waits: map<WaitId, Wait>) {
    forall key | key in escalations :: exists w :: w in waits && waits[w].key == key
  }

  /** The wait whose sender the answer took. */
  function TakenBy(a: Answering): Option<WaitId> { match a case Holding(w, _) => Some(w) case Told(took, _, _) => took }

  /** The sender an answer took is one of a registered wait; unsent, nothing was delivered through it;
      sent, the answer was told it reached the wait exactly if what the wait got is its reply. */
  predicate AnswerOk(waits: map<WaitId, Wait>, a: Answering) {
    match a
    case Holding(w, _) => w in waits && Registered(waits[w].phase) && waits[w].inbox.None?
    case Told(None, _, ok) => !ok
    case Told(Some(w), reply, ok) => w in waits && Registered(waits[w].phase) && waits[w].inbox == if ok then Some(reply) else None
  }

  predicate AnswersOk(answers: map<AnswerId, Answering>, waits: map<WaitId, Wait>) {
    forall a | a in answers :: AnswerOk(waits, answers[a])
  }

  /** A sender is taken at most once, and then no longer on the pending list. */
  predicate SendersOnce(s: State) {
    (forall a, b | a in s.answers && b in s.answers && a != b && TakenBy(s.answers[a]).Some? ::
       TakenBy(s.answers[a]) != TakenBy(s.answers[b]))
    && forall a, key | a in s.answers && key in s.pending :: TakenBy(s.answers[a]) != Some(s.pending[key])
  }

  predicate Reached(answers: map<AnswerId, Answering>, w: WaitId, reply: Reply) {
    exists a :: a in answers && answers[a] == Told(Some(w), reply, true)
  }

  /** What a wait got, an answer sent. */
  predicate InboxesSent(answers: map<AnswerId, Answering>, waits: map<WaitId, Wait>) {
    forall w | w in waits && waits[w].inbox.Some? :: Reached(answers, w, waits[w].inbox.value)
  }

  /** Every pending call is one wait's own, not yet answered; each sender is taken and used at most once;
      the notes are exactly those of the waits in between. */
  predicate Inv(s: State) {
    DistinctKeys(s.waits) && WaitsOk(s.waits) && PendingsOk(s.pending, s.waits)
    && AnswersOk(s.answers, s.waits) && SendersOnce(s) && InboxesSent(s.answers, s.waits)
    && NotesOk(s.escalations, s.waits) && NotesOwned(s.escalations, s.waits)
  }

  lemma KeysKept(s: State, step: Step)
    requires DistinctKeys(s.waits) && Enabled(s, step)
    ensures DistinctKeys(Next(s, step).waits)
  {
  }

  lemma WaitsKept(s: State, step: Step)
    requires WaitsOk(s.waits) && AnswersOk(s.answers, s.waits) && Enabled(s, step)
    ensures WaitsOk(Next(s, step).waits)
  {
    if step.Send? {
      assert AnswerOk(s.waits, s.answers[step.answer]);
    }
  }

  lemma PendingKept(s: State, step: Step)
    requires DistinctKeys(s.waits) && WaitsOk(s.waits) && PendingsOk(s.pending, s.waits) && SendersOnce(s) && Enabled(s, step)
    ensures PendingsOk(Next(s, step).pending, Next(s, step).waits)
  {
    var s' := Next(s, step);
    forall key | key in s'.pending ensures PendingOk(s'.waits, s'.pending[key], key) {
      if key in s.pending {
        assert PendingOk(s.waits, s.pending[key], key);
        if step.Send? {
          assert TakenBy(s.answers[step.answer]) != Some(s.pending[key]);
        }
      }
    }
  }

  lemma AnswersKept(s: State, step: Step)
    requires DistinctKeys(s.waits) && PendingsOk(s.pending, s.waits) && AnswersOk(s.answers, s.waits) && SendersOnce(s) && Enabled(s, step)
    ensures AnswersOk(Next(s, step).answers, Next(s, step).waits)
  {
    var s' := Next(s, step);
    forall a | a in s'.answers ensures AnswerOk(s'.waits, s'.answers[a]) {
      if a in s.answers {
        assert AnswerOk(s.waits, s.answers[a]);
        if step.Send? && a != step.answer {
          assert TakenBy(s.answers[a]) != TakenBy(s.answers[step.answer]);
        }
      } else if step.key in s.pending {
        assert PendingOk(s.waits, s.pending[step.key], step.key);
      }
    }
  }

  lemma SendersKept(s: State, step: Step)
    requires PendingsOk(s.pending, s.waits) && AnswersOk(s.answers, s.waits) && SendersOnce(s) && Enabled(s, step)
    ensures SendersOnce(Next(s, step))
  {
    if step.Register? {
      forall a | a in s.answers ensures TakenBy(s.answers[a]) != Some(step.wait) {
        assert AnswerOk(s.waits, s.answers[a]);
      }
    } else if step.Take? {
      forall key | key in s.pending && key != step.key && step.key in s.pending ensures s.pending[key] != s.pending[step.key] {
        assert PendingOk(s.waits, s.pending[key], key) && PendingOk(s.waits, s.pending[step.key], step.key);
      }
    }
  }

  lemma InboxesKept(s: State, step: Step)
    requires InboxesSent(s.answers, s.waits) && Enabled(s, step)
    ensures InboxesSent(Next(s, step).answers, Next(s, step).waits)
  {
    var s' := Next(s, step);
    forall w | w in s'.waits && s'.waits[w].inbox.Some? ensures Reached(s'.answers, w, s'.waits[w].inbox.value) {
      if step.Send? && s.answers[step.answer].wait == w && Receiving(s, w) {
        assert s'.answers[step.answer] == Told(Some(w), s'.waits[w].inbox.value, true);
      } else {
        assert Reached(s.answers, w, s.waits[w].inbox.value);
        var a :| a in s.answers && s.answers[a] == Told(Some(w), s.waits[w].inbox.value, true);
        assert s'.answers[a] == s.answers[a];
      }
    }
  }

  lemma NotesKept(s: State, step: Step)
    requires DistinctKeys(s.waits) && NotesOk(s.escalations, s.waits) && NotesOwned(s.escalations, s.waits) && Enabled(s, step)
    ensures NotesOk(Next(s, step).escalations, Next(s, step).waits)
  {
  }

  lemma OwnersKept(s: State, step: Step)
    requires NotesOwned(s.escalations, s.waits) && Enabled(s, step)
    ensures NotesOwned(Next(s, step).escalations, Next(s, step).waits)
  {
    var s' := Next(s, step);
    forall key | key in s'.escalations ensures exists w :: w in s'.waits && s'.waits[w].key == key {
      if key in s.escalations {
        var w :| w in s.waits && s.waits[w].key == key;
        assert w in s'.waits && s'.waits[w].key == key;
      } else {
        assert s'.waits[step.wait].key == key;
      }
    }
  }

  lemma StepKept(s: State, step: Step)
    requires Inv(s)
    ensures Inv(After(s, step))
  {
    if Enabled(s, step) {
      KeysKept(s, step);
      WaitsKept(s, step);
      PendingKept(s, step);
      AnswersKept(s, step);
      SendersKept(s, step);
      InboxesKept(s, step);
      NotesKept(s, step);
      OwnersKept(s, step);
    }
  }

  lemma {:induction false} ExecuteKept(s: State, steps: seq<Step>)
    requires Inv(s)
    ensures Inv(Execute(s, steps))
    decreases |steps|
  {
    if steps != [] {
      ExecuteKept(s, steps[..|steps| - 1]);
      StepKept(Execute(s, steps[..|steps| - 1]), steps[|steps| - 1]);
    }
  }

  lemma AlwaysInv(steps: seq<Step>)
    ensures Inv(Execute(IDLE, steps))
  {
    ExecuteKept(IDLE, steps);
  }

  // ---- Main results ----

  /** In every interleaving, every call that is pending is noted with why it asks. */
  lemma PendingIsNoted(steps: seq<Step>)
    ensures var s := Execute(IDLE, steps); forall key | key in s.pending :: key in s.escalations
  {
    AlwaysInv(steps);
    var s := Execute(IDLE, steps);
    forall key | key in s.pending ensures key in s.escalations {
      assert PendingOk(s.waits, s.pending[key], key);
    }
  }

  /** Why a wait's call may run: a person's approval that was told it reached the wait, no tool of it being
      off, or policies that allow the tool and every tool it names, with no concern raised. */
  predicate HasCause(s: State, w: WaitId)
    requires w in s.waits
  {
    var wait := s.waits[w];
    wait.phase.Over? && wait.phase.verdict.Some? && wait.phase.verdict.value.Allowed? ==>
      (wait.phase.verdict.value.decider == ByUser && Reached(s.answers, w, Approve) && !SomeOff(wait.ask))
      || (wait.phase.verdict.value.decider == ByPolicy && AllAllow(wait.ask) && wait.ask.concern.None?)
  }

  lemma CauseIs(s: State, w: WaitId)
    requires Inv(s) && w in s.waits
    ensures HasCause(s, w)
  {
    assert WaitOk(s.waits[w]);
    assert s.waits[w].inbox.Some? ==> Reached(s.answers, w, s.waits[w].inbox.value);
  }

  /** No call is allowed otherwise, in any interleaving. */
  lemma AllowedWithCause(steps: seq<Step>, w: WaitId)
    requires w in Execute(IDLE, steps).waits
    ensures HasCause(Execute(IDLE, steps), w)
  {
    AlwaysInv(steps);
    CauseIs(Execute(IDLE, steps), w);
  }

  /** Nothing is left behind: a call is pending or noted only while its own wait is under way. */
  lemma NothingLeftBehind(steps: seq<Step>, key: CallKey)
    requires key in Execute(IDLE, steps).pending || key in Execute(IDLE, steps).escalations
    ensures var s := Execute(IDLE, steps); exists w :: w in s.waits && s.waits[w].key == key && Listed(s.waits[w].phase)
  {
    AlwaysInv(steps);
    var s := Execute(IDLE, steps);
    if key in s.escalations {
      var w :| w in s.waits && s.waits[w].key == key;
      assert Listed(s.waits[w].phase);
    } else {
      assert PendingOk(s.waits, s.pending[key], key);
    }
  }

  predicate Succeeded(s: State, a: AnswerId, w: WaitId) {
    a in s.answers && s.answers[a].Told? && s.answers[a].ok && s.answers[a].took == Some(w)
  }

  /** Of all the answers a wait's call gets, at most one is told it succeeded, and then its reply is what
      the wait got. */
  lemma AnswersOnce(steps: seq<Step>, a: AnswerId, b: AnswerId, w: WaitId)
    requires Succeeded(Execute(IDLE, steps), a, w)
    ensures var s := Execute(IDLE, steps);
      w in s.waits && s.waits[w].inbox == Some(s.answers[a].reply) && (Succeeded(s, b, w) ==> b == a)
  {
    AlwaysInv(steps);
    var s := Execute(IDLE, steps);
    assert AnswerOk(s.waits, s.answers[a]);
  }

  /** The race an answer can lose: its sender taken, the wait times out before it is sent, and the answer
      is told that nothing was waiting. */
  lemma LateAnswer(s: State, w: WaitId, a: AnswerId, reply: Reply)
    requires w in s.waits && s.waits[w].phase == Waiting && a !in s.answers
    requires s.waits[w].key in s.pending && s.pending[s.waits[w].key] == w
    ensures var late := After(After(After(s, Take(a, s.waits[w].key, reply)), TimeOut(w)), Send(a));
      a in late.answers && late.answers[a] == Told(Some(w), reply, false) && late.waits[w].phase == Closing(Unanswered)
  {
  }

  /** A wait that ended with `outcome`: it is being closed, or is over with the verdict that outcome means. */
  predicate EndedWith(p: Phase, outcome: Outcome) {
    p == Closing(outcome) || p == Unlisted(outcome)
    || (p.Over? && (outcome == Given(Approve) ==> p.verdict == Some(Allowed(ByUser))) && (outcome == Given(Reject) ==> p.verdict == Some(Denied(ByUser)))
        && (outcome == Unanswered ==> p.verdict == Some(Denied(ByTimeout))) && (outcome == Abandoned ==> p.verdict == None))
  }

  lemma EndedStays(s: State, step: Step, w: WaitId, outcome: Outcome)
    requires w in s.waits && EndedWith(s.waits[w].phase, outcome)
    ensures w in After(s, step).waits && EndedWith(After(s, step).waits[w].phase, outcome)
  {
  }

  /** What ends a wait decides it, whatever happens after: the reply it received, allowing or refusing as the person did; the time
      running out, refusing as a timeout; or the run being dropped, deciding nothing. */
  lemma {:induction false} EndsAsItEnded(s: State, steps: seq<Step>, w: WaitId, step: Step)
    requires Enabled(s, step) && (step == Receive(w) || step == TimeOut(w) || step == Drop(w))
    ensures w in Execute(After(s, step), steps).waits
    ensures EndedWith(Execute(After(s, step), steps).waits[w].phase,
      if step == TimeOut(w) then Unanswered else if step == Drop(w) then Abandoned else Given(s.waits[w].inbox.value))
    decreases |steps|
  {
    if steps != [] {
      var outcome := if step == TimeOut(w) then Unanswered else if step == Drop(w) then Abandoned else Given(s.waits[w].inbox.value);
      EndsAsItEnded(s, steps[..|steps| - 1], w, step);
      EndedStays(Execute(After(s, step), steps[..|steps| - 1]), steps[|steps| - 1], w, outcome);
    }
  }

  // ---- Runs of steps ----

  lemma {:induction false} ExecuteConcat(s: State, first: seq<Step>, more: seq<Step>)
    ensures Execute(s, first + more) == Execute(Execute(s, first), more)
    decreases |more|
  {
    if more == [] {
      assert first + more == first;
    } else {
      assert (first + more)[..|first + more| - 1] == first + more[..|more| - 1];
      ExecuteConcat(s, first, more[..|more| - 1]);
    }
  }

  lemma ExecuteOne(s: State, step: Step)
    ensures Execute(s, [step]) == After(s, step)
  {
    assert [step][..0] == [];
    assert Execute(s, []) == s;
  }

  /** A step of another decision, or of an answer. */
  predicate NotOf(step: Step, w: WaitId) { step.Take? || step.Send? || step.wait != w }

  predicate NoneOf(steps: seq<Step>, w: WaitId) { forall i | 0 <= i < |steps| :: NotOf(steps[i], w) }

  /** A decision stands where it stood: what it decides and how far it has got. */
  predicate Stands(s: State, s': State, w: WaitId) {
    w in s.waits && w in s'.waits && s'.waits[w].key == s.waits[w].key && s'.waits[w].ask == s.waits[w].ask
    && s'.waits[w].phase == s.waits[w].phase
  }

  /** Other decisions and answers leave a decision where it stands; all it may get is a reply. */
  lemma {:induction false} OthersLeave(s: State, steps: seq<Step>, w: WaitId)
    requires w in s.waits && NoneOf(steps, w)
    ensures Stands(s, Execute(s, steps), w)
    decreases |steps|
  {
    if steps != [] {
      OthersLeave(s, steps[..|steps| - 1], w);
      var last := steps[|steps| - 1];
      assert NotOf(last, w);
    }
  }

  /** Nor do they touch an answer in progress. */
  predicate NoSend(steps: seq<Step>, a: AnswerId) { forall i | 0 <= i < |steps| :: steps[i] != Send(a) }

  lemma {:induction false} AnswerLeft(s: State, steps: seq<Step>, a: AnswerId)
    requires a in s.answers && NoSend(steps, a)
    ensures a in Execute(s, steps).answers && Execute(s, steps).answers[a] == s.answers[a]
    decreases |steps|
  {
    if steps != [] {
      AnswerLeft(s, steps[..|steps| - 1], a);
      assert steps[|steps| - 1] != Send(a);
    }
  }

  /** A decision that is over is on neither list. */
  lemma OffLists(s: State, w: WaitId)
    requires Inv(s) && w in s.waits && s.waits[w].phase.Over?
    ensures s.waits[w].key !in s.pending && s.waits[w].key !in s.escalations
  {
    var key := s.waits[w].key;
    assert key in s.pending ==> PendingOk(s.waits, s.pending[key], key);
  }

  /** The wait has got the reply. */
  predicate Got(s: State, w: WaitId, reply: Reply) {
    w in s.waits && s.waits[w].inbox == Some(reply)
  }

  lemma KeyStaysOnce(s: State, step: Step, w: WaitId)
    requires w in s.waits && Enabled(s, step)
    ensures w in Next(s, step).waits && Next(s, step).waits[w].key == s.waits[w].key
  {
  }

  /** A wait is for the same call throughout. */
  lemma {:induction false} KeyStays(s: State, steps: seq<Step>, w: WaitId)
    requires w in s.waits
    ensures w in Execute(s, steps).waits && Execute(s, steps).waits[w].key == s.waits[w].key
    decreases |steps|
  {
    if steps != [] {
      var before := Execute(s, steps[..|steps| - 1]);
      KeyStays(s, steps[..|steps| - 1], w);
      if Enabled(before, steps[|steps| - 1]) {
        KeyStaysOnce(before, steps[|steps| - 1], w);
      }
    }
  }

  lemma GotIs(s: State, a: AnswerId)
    requires Inv(s) && a in s.answers
    ensures s.answers[a].Told? && s.answers[a].ok ==> s.answers[a].took.Some? && Got(s, s.answers[a].took.value, s.answers[a].reply)
  {
    assert AnswerOk(s.waits, s.answers[a]);
  }

  // ---- The gate ----

  /** The lists, behind their locks, and the decisions and answers in progress. */
  class Gate {
    var pending: map<CallKey, WaitId>
    var escalations: set<CallKey>
    var waits: map<WaitId, Wait>
    var answers: map<AnswerId, Answering>

    function Now(): State reads this { State(pending, escalations, waits, answers) }

    constructor ()
      ensures Now() == IDLE
    {
      pending, escalations, waits, answers := map[], {}, map[], map[];
    }

    // ---- Atomic steps ----

    /** Decides a call by policy, or begins to ask. */
    method Begin(w: WaitId, key: CallKey, ask: Ask, interactive: bool) returns (r: Option<Verdict>)
      requires Enabled(Now(), Step.Decide(w, key, ask, interactive))
      modifies this
      ensures r == Alone(ask, interactive) && Now() == Next(old(Now()), Step.Decide(w, key, ask, interactive))
    {
      r := DecideAlone(ask, interactive);
      waits := waits[w := Wait(key, ask, if r.Some? then Over(r) else Asking, None)];
    }

    method Note(w: WaitId)
      requires Enabled(Now(), NoteWhy(w))
      modifies this
      ensures Now() == Next(old(Now()), NoteWhy(w))
    {
      escalations := escalations + {waits[w].key};
      waits := waits[w := waits[w].(phase := Noted)];
    }

    method Enlist(w: WaitId)
      requires Enabled(Now(), Register(w))
      modifies this
      ensures Now() == Next(old(Now()), Register(w))
    {
      pending := pending[waits[w].key := w];
      waits := waits[w := waits[w].(phase := Waiting)];
    }

    /** Takes a call's sender off the pending list, if there is one. */
    method TakeSender(a: AnswerId, key: CallKey, reply: Reply) returns (taken: Option<WaitId>)
      requires Enabled(Now(), Take(a, key, reply))
      modifies this
      ensures Now() == Next(old(Now()), Take(a, key, reply))
      ensures taken == if key in old(pending) then Some(old(pending)[key]) else None
    {
      if key !in pending {
        assert pending - {key} == pending;
        answers := answers[a := Told(None, reply, false)];
        return None;
      }
      taken := Some(pending[key]);
      pending := pending - {key};
      answers := answers[a := Holding(taken.value, reply)];
    }

    /** Sends through it; false if the receiver is gone. */
    method SendReply(a: AnswerId) returns (ok: bool)
      requires Enabled(Now(), Send(a))
      modifies this
      ensures Now() == Next(old(Now()), Send(a))
      ensures ok == Receiving(old(Now()), old(answers[a].wait))
    {
      var w, reply := answers[a].wait, answers[a].reply;
      ok := w in waits && waits[w].phase == Waiting;
      if ok { waits := waits[w := waits[w].(inbox := Some(reply))]; }
      answers := answers[a := Told(Some(w), reply, ok)];
    }

    /** The wait ends: with what it got, if it got something and sees it in time. */
    method Conclude(w: WaitId, step: Step)
      requires (step == Receive(w) || step == TimeOut(w) || step == Drop(w)) && Enabled(Now(), step)
      modifies this
      ensures Now() == Next(old(Now()), step)
    {
      var outcome := if step.Receive? then Given(waits[w].inbox.value) else if step.TimeOut? then Unanswered else Abandoned;
      waits := waits[w := waits[w].(phase := Closing(outcome))];
    }

    /** The wait is over, however it ended: off the pending list. */
    method TakeOff(w: WaitId)
      requires Enabled(Now(), Unlist(w))
      modifies this
      ensures Now() == Next(old(Now()), Unlist(w))
    {
      pending := pending - {waits[w].key};
      waits := waits[w := waits[w].(phase := Unlisted(waits[w].phase.outcome))];
    }

    /** Then its note is dropped, and the verdict follows from how it ended. */
    method Finish(w: WaitId) returns (r: Option<Verdict>)
      requires Enabled(Now(), Forget(w))
      modifies this
      ensures r == VerdictOf(old(waits[w].phase.outcome)) && Now() == Next(old(Now()), Forget(w))
    {
      escalations := escalations - {waits[w].key};
      r := VerdictOf(waits[w].phase.outcome);
      waits := waits[w := waits[w].(phase := Over(r))];
    }

    method Perform(step: Step)
      modifies this
      ensures Now() == After(old(Now()), step)
    {
      if Enabled(Now(), step) {
        match step {
          case Decide(w, key, ask, interactive) => var _ := Begin(w, key, ask, interactive);
          case NoteWhy(w) => Note(w);
          case Register(w) => Enlist(w);
          case Take(a, key, reply) => var _ := TakeSender(a, key, reply);
          case Send(a) => var _ := SendReply(a);
          case Unlist(w) => TakeOff(w);
          case Forget(w) => var _ := Finish(w);
          case _ => Conclude(step.wait, step);
        }
      }
    }

    // ---- Whole operations, with everything else in between ----

    /** Any steps of other decisions and of answers. */
    method Others(w: WaitId) returns (ghost steps: seq<Step>)
      requires w in waits && Inv(Now())
      modifies this
      ensures Now() == Execute(old(Now()), steps) && Inv(Now()) && NoneOf(steps, w) && Stands(old(Now()), Now(), w)
    {
      var all: seq<Step> := *;
      steps := [];
      for i := 0 to |all|
        invariant Now() == Execute(old(Now()), steps) && NoneOf(steps, w)
      {
        if NotOf(all[i], w) {
          Perform(all[i]);
          assert (steps + [all[i]])[..|steps|] == steps;
          steps := steps + [all[i]];
        }
      }
      ExecuteKept(old(Now()), steps);
      OthersLeave(old(Now()), steps, w);
    }

    /** One step of a decision, then anything else. */
    method Advance(w: WaitId, step: Step, ghost start: State, ghost before: seq<Step>) returns (ghost steps: seq<Step>)
      requires Inv(Now()) && Now() == Execute(start, before) && w in waits && Enabled(Now(), step)
      modifies this
      ensures Inv(Now()) && Now() == Execute(start, steps) && Stands(Next(old(Now()), step), Now(), w)
    {
      StepKept(Now(), step);
      ExecuteOne(Now(), step);
      ExecuteConcat(start, before, [step]);
      Perform(step);
      ghost var more := Others(w);
      ExecuteConcat(start, before + [step], more);
      steps := before + [step] + more;
    }

    /** Asks a person: notes why, registers the sender, and waits until a reply arrives, time runs out or the
        run is stopped; then takes the call off both lists. */
    method AskPerson(w: WaitId, ghost start: State, ghost before: seq<Step>) returns (r: Option<Verdict>, ghost steps: seq<Step>)
      requires Inv(Now()) && Now() == Execute(start, before) && w in waits && waits[w].phase == Asking
      modifies this
      ensures Inv(Now()) && Now() == Execute(start, steps)
      ensures w in waits && waits[w].key == old(waits[w].key) && waits[w].ask == old(waits[w].ask) && waits[w].phase == Over(r)
    {
      steps := Advance(w, NoteWhy(w), start, before);
      steps := Advance(w, Register(w), start, steps);
      var arrived: bool := *;
      var stopped: bool := *;
      var end := if arrived && waits[w].inbox.Some? then Receive(w) else if stopped then Drop(w) else TimeOut(w);
      steps := Advance(w, end, start, steps);
      steps := Advance(w, Unlist(w), start, steps);
      StepKept(Now(), Forget(w));
      ExecuteOne(Now(), Forget(w));
      ExecuteConcat(start, steps, [Forget(w)]);
      steps := steps + [Forget(w)];
      r := Finish(w);
    }

    /** Decides a call, whatever happens in between. When it returns, the call is on neither list, and it is
        allowed only for a cause. */
    method Decide(w: WaitId, key: CallKey, ask: Ask, interactive: bool) returns (r: Option<Verdict>, ghost steps: seq<Step>)
      requires Inv(Now()) && Enabled(Now(), Step.Decide(w, key, ask, interactive))
      modifies this
      ensures Inv(Now()) && Now() == Execute(old(Now()), steps)
      ensures w in waits && waits[w].key == key && waits[w].ask == ask && waits[w].phase == Over(r)
      ensures HasCause(Now(), w) && key !in pending && key !in escalations
    {
      StepKept(Now(), Step.Decide(w, key, ask, interactive));
      ExecuteOne(Now(), Step.Decide(w, key, ask, interactive));
      steps := [Step.Decide(w, key, ask, interactive)];
      r := Begin(w, key, ask, interactive);
      if r.None? {
        r, steps := AskPerson(w, old(Now()), steps);
      }
      CauseIs(Now(), w);
      OffLists(Now(), w);
    }

    /** Answers a call; true exactly if the answer is told it reached the wait, which then has it. */
    method Answer(a: AnswerId, key: CallKey, reply: Reply) returns (ok: bool, ghost steps: seq<Step>)
      requires Inv(Now()) && a !in answers
      modifies this
      ensures Inv(Now()) && Now() == Execute(old(Now()), steps)
      ensures a in answers && answers[a].Told? && answers[a].reply == reply && answers[a].ok == ok
      ensures ok ==> key in old(pending) && answers[a].took == Some(old(pending)[key])
      ensures ok ==> Got(Now(), old(pending)[key], reply) && waits[old(pending)[key]].key == key
    {
      if key in pending {
        assert PendingOk(waits, pending[key], key);
      }
      StepKept(Now(), Take(a, key, reply));
      ExecuteOne(Now(), Take(a, key, reply));
      steps := [Take(a, key, reply)];
      var taken := TakeSender(a, key, reply);
      if taken.None? { return false, steps; }
      ghost var more := Meanwhile(a);
      ExecuteConcat(old(Now()), steps, more);
      steps := steps + more;
      StepKept(Now(), Send(a));
      ExecuteOne(Now(), Send(a));
      ExecuteConcat(old(Now()), steps, [Send(a)]);
      steps := steps + [Send(a)];
      ok := SendReply(a);
      GotIs(Now(), a);
      KeyStays(old(Now()), steps, taken.value);
    }

    /** Any steps of decisions and of other answers. */
    method Meanwhile(a: AnswerId) returns (ghost steps: seq<Step>)
      requires a in answers && Inv(Now())
      modifies this
      ensures Now() == Execute(old(Now()), steps) && Inv(Now()) && a in answers && answers[a] == old(answers[a])
    {
      var all: seq<Step> := *;
      steps := [];
      for i := 0 to |all|
        invariant Now() == Execute(old(Now()), steps) && NoSend(steps, a)
      {
        if all[i] != Send(a) {
          Perform(all[i]);
          assert (steps + [all[i]])[..|steps|] == steps;
          steps := steps + [all[i]];
        }
      }
      ExecuteKept(old(Now()), steps);
      AnswerLeft(old(Now()), steps, a);
    }
  }
}
