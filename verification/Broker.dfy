/** The human-in-the-loop rendezvous (crates/agents/src/broker.rs).  Asks and
    answers run concurrently; every step between two awaits is one atomic step of
    a state machine, and any interleaving of steps is a run. */
module Broker {
  import opened Text

  datatype Kind = Approval | Question

  /** What an answer carries: an allow or a deny, or free text. */
  datatype Answer = Verdict(allow: bool) | Words(text: string)

  predicate Fits(kind: Kind, a: Answer) { a.Verdict? <==> kind == Approval }

  /** Where an ask stands: its id is minted, its sender is in the map, its wait is
      over with or without an answer, or it has returned.  A dropped ask is one
      whose future was discarded by its caller. */
  datatype Phase =
    | Minted
    | Waiting
    | Woken(answer: Option<Answer>)
    | Returned(answer: Option<Answer>)
    | Dropped

  datatype Ask = Ask(kind: Kind, phase: Phase)

  /** The broker set: the id counter, the asks made so far, the senders in the two
      pending maps, and what was sent into each one-shot channel. */
  datatype State = State(
    next: nat,
    asks: map<nat, Ask>,
    approvals: set<nat>,
    questions: set<nat>,
    sent: map<nat, Answer>)

  const INITIAL := State(0, map[], {}, {}, map[])

  /** Steps of an ask: mint its id, insert its sender, wake with the answer, be
      cancelled, time out, remove its sender and return, or be dropped.  And the one
      step of an answer.  The wait looks at the interrupt first, then at its
      channel, then at the clock: an interrupt beats an answer that is there, an
      answer that is there beats the clock. */
  datatype Step =
    | Mint(kind: Kind)
    | Insert(id: nat)
    | Wake(id: nat)
    | Cancel(id: nat)
    | Timeout(id: nat)
    | Remove(id: nat)
    | Drop(id: nat)
    | Resolve(kind: Kind, id: nat, answer: Answer)

  function Pending(s: State, kind: Kind): set<nat> {
    if kind == Approval then s.approvals else s.questions
  }

  function WithPending(s: State, kind: Kind, ids: set<nat>): State {
    if kind == Approval then s.(approvals := ids) else s.(questions := ids)
  }

  predicate InPhase(s: State, id: nat, p: Phase) { id in s.asks && s.asks[id].phase == p }

  function Enter(s: State, id: nat, p: Phase): State
    requires id in s.asks
  {
    s.(asks := s.asks[id := s.asks[id].(phase := p)])
  }

  /** Whether the step can be taken. A verdict answers approvals, words answer
      questions; anybody may try any id at any time. */
  predicate Enabled(s: State, step: Step) {
    match step
    case Mint(_) => true
    case Insert(id) => InPhase(s, id, Minted)
    case Wake(id) => InPhase(s, id, Waiting) && id in s.sent
    case Cancel(id) => InPhase(s, id, Waiting)
    case Timeout(id) => InPhase(s, id, Waiting) && id !in s.sent
    case Remove(id) => id in s.asks && s.asks[id].phase.Woken?
    case Drop(id) => id in s.asks && !s.asks[id].phase.Returned?
    case Resolve(kind, _, answer) => Fits(kind, answer)
  }

  /** What `resolve_approval` and `answer_question` return. */
  predicate Accepts(s: State, step: Step) {
    step.Resolve? && Fits(step.kind, step.answer) && step.id in Pending(s, step.kind)
  }

  function Next(s: State, step: Step): State {
    if !Enabled(s, step) then s
    else match step
      case Mint(kind) =>
        var id := s.next + 1;
        s.(next := id, asks := s.asks[id := Ask(kind, Minted)])
      case Insert(id) =>
        var kind := s.asks[id].kind;
        Enter(WithPending(s, kind, Pending(s, kind) + {id}), id, Waiting)
      case Wake(id) => Enter(s, id, Woken(Some(s.sent[id])))
      case Cancel(id) => Enter(s, id, Woken(None))
      case Timeout(id) => Enter(s, id, Woken(None))
      case Remove(id) =>
        var Ask(kind, phase) := s.asks[id];
        Enter(WithPending(s, kind, Pending(s, kind) - {id}), id, Returned(phase.answer))
      case Drop(id) => Enter(s, id, Dropped)
      case Resolve(kind, id, answer) =>
        if id in Pending(s, kind) then
          WithPending(s, kind, Pending(s, kind) - {id}).(sent := s.sent[id := answer])
        else s
  }

  /** The state after the first `n` steps. */
  function At(steps: seq<Step>, n: nat): State
    requires n <= |steps|
  {
    if n == 0 then INITIAL else Next(At(steps, n - 1), steps[n - 1])
  }

  // ----------------------------------------------------------------- the broker

  /** What others do before a waiting ask is polled, and what its poll then finds:
      whether the turn was interrupted and whether the time is up. */
  datatype Turn = Turn(others: seq<Step>, interrupted: bool, expired: bool)

  /** What happens around one ask: before it takes the lock to insert its sender,
      while it waits, and before it takes the lock again to remove it. */
  datatype Schedule = Schedule(before: seq<Step>, turns: seq<Turn>, after: seq<Step>)

  /** A step that is none of the ask's own. */
  predicate Foreign(step: Step, id: nat) { step.Mint? || step.Resolve? || step.id != id }

  predicate AllForeign(steps: seq<Step>, id: nat) { forall i :: 0 <= i < |steps| ==> Foreign(steps[i], id) }

  predicate TurnsForeign(turns: seq<Turn>, id: nat) { forall i :: 0 <= i < |turns| ==> AllForeign(turns[i].others, id) }

  /** The other tasks leave the ask's own steps to it. */
  predicate Around(sch: Schedule, id: nat) {
    AllForeign(sch.before, id) && TurnsForeign(sch.turns, id) && AllForeign(sch.after, id)
  }

  /** `BrokerSet` and the tasks that use it: `asks` says where each ask stands, and
      each method is one critical section of an ask or an answer. */
  class BrokerSet {
    var next: nat
    var approvals: set<nat>
    var questions: set<nat>
    var sent: map<nat, Answer>
    var asks: map<nat, Ask>
    ghost var history: seq<Step>

    ghost function View(): State
      reads this
    {
      State(next, asks, approvals, questions, sent)
    }

    /** The state is what the steps taken so far have made of it. */
    ghost predicate Valid()
      reads this
    {
      View() == At(history, |history|)
    }

    twostate predicate Took(step: Step)
      reads this
    {
      Valid() && View() == Next(old(View()), step) && history == old(history) + [step]
    }

    constructor ()
      ensures Valid() && history == []
    {
      next, approvals, questions, sent, asks, history := 0, {}, {}, map[], map[], [];
    }

    method NextId(kind: Kind) returns (id: nat)
      requires Valid()
      modifies this
      ensures Took(Mint(kind)) && id == next
    {
      next := next + 1;
      id := next;
      asks := asks[id := Ask(kind, Minted)];
      history := history + [Mint(kind)];
      Extended(old(history), Mint(kind));
    }

    method InsertSender(id: nat)
      requires Valid() && InPhase(View(), id, Minted)
      modifies this
      ensures Took(Insert(id))
    {
      match asks[id].kind {
        case Approval => approvals := approvals + {id};
        case Question => questions := questions + {id};
      }
      asks := asks[id := asks[id].(phase := Waiting)];
      history := history + [Insert(id)];
      Extended(old(history), Insert(id));
    }

    /** One poll of `wait`: whether it is over, and with what. */
    method Poll(id: nat, interrupted: bool, expired: bool) returns (done: bool, answer: Option<Answer>)
      requires Valid() && InPhase(View(), id, Waiting)
      modifies this
      ensures interrupted ==> Took(Cancel(id))
      ensures !interrupted && id in old(sent) ==> Took(Wake(id))
      ensures !interrupted && id !in old(sent) && expired ==> Took(Timeout(id))
      ensures done <==> interrupted || id in old(sent) || expired
      ensures done ==> InPhase(View(), id, Woken(answer))
      ensures !done ==> Valid() && View() == old(View()) && history == old(history)
    {
      done, answer := true, None;
      var step: Step;
      if interrupted {
        step := Cancel(id);
      } else if id in sent {
        step, answer := Wake(id), Some(sent[id]);
      } else if expired {
        step := Timeout(id);
      } else {
        return false, None;
      }
      asks := asks[id := asks[id].(phase := Woken(answer))];
      history := history + [step];
      Extended(old(history), step);
    }

    /** The last step of an ask takes its sender out of the map. */
    method RemoveSender(id: nat, ghost answer: Option<Answer>)
      requires Valid() && InPhase(View(), id, Woken(answer))
      modifies this
      ensures Took(Remove(id)) && InPhase(View(), id, Returned(answer))
    {
      match asks[id].kind {
        case Approval => approvals := approvals - {id};
        case Question => questions := questions - {id};
      }
      asks := asks[id := asks[id].(phase := Returned(asks[id].phase.answer))];
      history := history + [Remove(id)];
      Extended(old(history), Remove(id));
    }

    /** The caller discards the ask's future; its sender stays behind. */
    method Discard(id: nat)
      requires Valid() && Enabled(View(), Drop(id))
      modifies this
      ensures Took(Drop(id))
    {
      asks := asks[id := asks[id].(phase := Dropped)];
      history := history + [Drop(id)];
      Extended(old(history), Drop(id));
    }

    method ResolveApproval(id: nat, allow: bool) returns (pending: bool)
      requires Valid()
      modifies this
      ensures Took(Resolve(Approval, id, Verdict(allow)))
      ensures pending <==> Accepts(old(View()), Resolve(Approval, id, Verdict(allow)))
    {
      pending := id in approvals;
      if pending {
        approvals := approvals - {id};
        sent := sent[id := Verdict(allow)];
      }
      history := history + [Resolve(Approval, id, Verdict(allow))];
      Extended(old(history), Resolve(Approval, id, Verdict(allow)));
    }

    method AnswerQuestion(id: nat, text: string) returns (pending: bool)
      requires Valid()
      modifies this
      ensures Took(Resolve(Question, id, Words(text)))
      ensures pending <==> Accepts(old(View()), Resolve(Question, id, Words(text)))
    {
      pending := id in questions;
      if pending {
        questions := questions - {id};
        sent := sent[id := Words(text)];
      }
      history := history + [Resolve(Question, id, Words(text))];
      Extended(old(history), Resolve(Question, id, Words(text)));
    }

    /** Any step of any task. */
    method Take(step: Step)
      requires Valid() && Enabled(View(), step)
      modifies this
      ensures Took(step)
    {
      match step {
        case Mint(kind) => var _ := NextId(kind);
        case Insert(id) => InsertSender(id);
        case Wake(id) => var _, _ := Poll(id, false, false);
        case Cancel(id) => var _, _ := Poll(id, true, false);
        case Timeout(id) => var _, _ := Poll(id, false, true);
        case Remove(id) => RemoveSender(id, asks[id].phase.answer);
        case Drop(id) => Discard(id);
        case Resolve(kind, id, answer) =>
          match answer {
            case Verdict(allow) => var _ := ResolveApproval(id, allow);
            case Words(text) => var _ := AnswerQuestion(id, text);
          }
      }
    }

    /** What the other tasks do meanwhile; a step that cannot be taken is not. */
    method Others(steps: seq<Step>, ghost id: nat)
      requires Valid() && id in asks && AllForeign(steps, id)
      modifies this
      ensures Valid() && id in asks && asks[id] == old(asks[id])
    {
      for i := 0 to |steps|
        invariant Valid() && id in asks && asks[id] == old(asks[id])
      {
        if Enabled(State(next, asks, approvals, questions, sent), steps[i]) {
          EveryState(history, |history|);
          ForeignKeeps(View(), steps[i], id);
          Take(steps[i]);
        }
      }
    }

    /** `wait`: polled until it is over, at the latest when the time is up. */
    method Wait(id: nat, turns: seq<Turn>) returns (answer: Option<Answer>)
      requires Valid() && InPhase(View(), id, Waiting) && TurnsForeign(turns, id)
      modifies this
      ensures Valid() && InPhase(View(), id, Woken(answer)) && asks[id].kind == old(asks[id].kind)
    {
      var done := false;
      for i := 0 to |turns|
        invariant Valid() && id in asks && asks[id] == old(asks[id])
      {
        Others(turns[i].others, id);
        done, answer := Poll(id, turns[i].interrupted, turns[i].expired);
        if done { return; }
      }
      done, answer := Poll(id, false, true);
    }

    /** The part the two kinds of ask share: mint, insert, wait, remove. */
    method RunAsk(kind: Kind, sch: Schedule) returns (id: nat, answer: Option<Answer>)
      requires Valid() && Around(sch, next + 1)
      modifies this
      ensures Valid() && id == old(next) + 1
      ensures id in asks && asks[id] == Ask(kind, Returned(answer))
    {
      id := NextId(kind);
      Others(sch.before, id);
      InsertSender(id);
      answer := Wait(id, sch.turns);
      Others(sch.after, id);
      RemoveSender(id, answer);
    }

    /** `ask_approval`: true if and only if an allow for its own id was accepted
        while it waited and no interrupt was seen before it woke. */
    method AskApproval(sch: Schedule) returns (id: nat, verdict: bool)
      requires Valid() && Around(sch, next + 1)
      modifies this
      ensures Valid() && id == old(next) + 1
      ensures verdict <==> Reached(history, |history|, id, Verdict(true))
    {
      var answer;
      id, answer := RunAsk(Approval, sch);
      EveryState(history, |history|);
      ReturnsIff(history, |history|, id, Verdict(true));
      verdict := if answer.Some? then answer.value.allow else false;
    }

    /** `ask_question`: the text of the answer that reached it, if any did. */
    method AskQuestion(sch: Schedule) returns (id: nat, text: Option<string>)
      requires Valid() && Around(sch, next + 1)
      modifies this
      ensures Valid() && id == old(next) + 1
      ensures forall words :: text == Some(words) <==> Reached(history, |history|, id, Words(words))
    {
      var answer;
      id, answer := RunAsk(Question, sch);
      EveryState(history, |history|);
      text := if answer.Some? then Some(answer.value.text) else None;
      forall words
        ensures text == Some(words) <==> Reached(history, |history|, id, Words(words))
      {
        ReturnsIff(history, |history|, id, Words(words));
      }
    }
  }

  lemma {:induction false} SamePrefix(steps: seq<Step>, step: Step, n: nat)
    requires n <= |steps|
    ensures At(steps + [step], n) == At(steps, n)
    decreases n
  {
    if n > 0 { SamePrefix(steps, step, n - 1); }
  }

  lemma {:induction false} Extended(steps: seq<Step>, step: Step)
    ensures At(steps + [step], |steps| + 1) == Next(At(steps, |steps|), step)
  {
    SamePrefix(steps, step, |steps|);
  }

  lemma {:induction false} ForeignKeeps(s: State, step: Step, id: nat)
    requires Inv(s) && Foreign(step, id) && id in s.asks
    ensures id in Next(s, step).asks && Next(s, step).asks[id] == s.asks[id]
  {}

  // --------------------------------------------------------------- the invariant

  /** A pending id has its live ask behind it and nothing sent yet. */
  ghost predicate PendingOk(s: State, kind: Kind, ids: set<nat>) {
    forall id :: id in ids ==>
      && id in s.asks && s.asks[id].kind == kind && id !in s.sent
      && s.asks[id].phase != Minted && !s.asks[id].phase.Returned?
  }

  /** What was sent fits its ask; an ask that woke with an answer was sent it. */
  ghost predicate AnswersOk(s: State) {
    && (forall id :: id in s.sent ==> id in s.asks && Fits(s.asks[id].kind, s.sent[id]) && s.asks[id].phase != Minted)
    && (forall id :: id in s.asks && HasAnswer(s.asks[id].phase) ==>
          id in s.sent && s.asks[id].phase.answer.value == s.sent[id])
  }

  predicate HasAnswer(p: Phase) { (p.Woken? || p.Returned?) && p.answer.Some? }

  ghost predicate Inv(s: State) {
    && (forall id :: id in s.asks ==> 0 < id <= s.next)
    && PendingOk(s, Approval, s.approvals)
    && PendingOk(s, Question, s.questions)
    && AnswersOk(s)
  }

  /** Moving an ask on, past the start and short of its return. */
  lemma {:induction false} EnterKeeps(s: State, id: nat, p: Phase)
    requires Inv(s) && id in s.asks && s.asks[id].phase != Minted && p != Minted && !p.Returned?
    requires HasAnswer(p) ==> id in s.sent && p.answer.value == s.sent[id]
    ensures Inv(Enter(s, id, p))
  {}

  lemma {:induction false} MintKeeps(s: State, kind: Kind)
    requires Inv(s)
    ensures Inv(Next(s, Mint(kind)))
  {}

  lemma {:induction false} InsertKeeps(s: State, id: nat)
    requires Inv(s) && InPhase(s, id, Minted)
    ensures Inv(Next(s, Insert(id)))
  {}

  lemma {:induction false} RemoveKeeps(s: State, id: nat)
    requires Inv(s) && id in s.asks && s.asks[id].phase.Woken?
    ensures Inv(Next(s, Remove(id)))
  {
    assert s.asks[id].kind == Approval ==> id !in s.questions;
  }

  lemma {:induction false} ResolveKeeps(s: State, kind: Kind, id: nat, answer: Answer)
    requires Inv(s) && Fits(kind, answer)
    ensures Inv(Next(s, Resolve(kind, id, answer)))
  {}

  lemma {:induction false} DropKeeps(s: State, id: nat)
    requires Inv(s) && InPhase(s, id, Minted)
    ensures Inv(Enter(s, id, Dropped))
  {}

  lemma {:induction false} NextKeeps(s: State, step: Step)
    requires Inv(s)
    ensures Inv(Next(s, step))
  {
    if Enabled(s, step) {
      match step
      case Mint(kind) => MintKeeps(s, kind);
      case Insert(id) => InsertKeeps(s, id);
      case Wake(id) => EnterKeeps(s, id, Woken(Some(s.sent[id])));
      case Cancel(id) => EnterKeeps(s, id, Woken(None));
      case Timeout(id) => EnterKeeps(s, id, Woken(None));
      case Remove(id) => RemoveKeeps(s, id);
      case Drop(id) => if InPhase(s, id, Minted) { DropKeeps(s, id); } else { EnterKeeps(s, id, Dropped); }
      case Resolve(kind, id, answer) => ResolveKeeps(s, kind, id, answer);
    }
  }

  /** Nothing is ever unsent, and no ask is forgotten. */
  lemma {:induction false} NextGrows(s: State, step: Step)
    requires Inv(s)
    ensures s.next <= Next(s, step).next && s.asks.Keys <= Next(s, step).asks.Keys
    ensures forall id :: id in s.sent ==> id in Next(s, step).sent && Next(s, step).sent[id] == s.sent[id]
  {}

  lemma {:induction false} EveryState(steps: seq<Step>, n: nat)
    requires n <= |steps|
    ensures Inv(At(steps, n))
    decreases n
  {
    if n > 0 {
      EveryState(steps, n - 1);
      NextKeeps(At(steps, n - 1), steps[n - 1]);
    }
  }

  lemma {:induction false} Grows(steps: seq<Step>, m: nat, n: nat)
    requires m <= n <= |steps|
    ensures At(steps, m).next <= At(steps, n).next
    ensures forall id :: id in At(steps, m).sent ==> id in At(steps, n).sent
    decreases n
  {
    if m < n {
      Grows(steps, m, n - 1);
      EveryState(steps, n - 1);
      NextGrows(At(steps, n - 1), steps[n - 1]);
    }
  }

  // ------------------------------------------------------------- safety of every run

  /** The `i`th step is an answer that was accepted for `id`. */
  ghost predicate AcceptedAt(steps: seq<Step>, i: nat, id: nat) {
    i < |steps| && Accepts(At(steps, i), steps[i]) && steps[i].id == id
  }

  /** No id is handed out twice. */
  lemma {:induction false} IdsNeverRepeat(steps: seq<Step>, i: nat, j: nat)
    requires i < j < |steps| && steps[i].Mint? && steps[j].Mint?
    ensures At(steps, i + 1).next < At(steps, j + 1).next
    ensures At(steps, j + 1).next !in At(steps, j).asks
  {
    Grows(steps, i + 1, j);
    EveryState(steps, j);
  }

  /** An accepted answer is in the channel from then on. */
  lemma {:induction false} AcceptedIsSent(steps: seq<Step>, i: nat, id: nat, n: nat)
    requires AcceptedAt(steps, i, id) && i < n <= |steps|
    ensures id in At(steps, n).sent
  {
    Grows(steps, i + 1, n);
  }

  /** Whoever answers, and however often, at most one answer is accepted for an
      id. */
  lemma {:induction false} AcceptedAtMostOnce(steps: seq<Step>, i: nat, j: nat, id: nat)
    requires AcceptedAt(steps, i, id) && AcceptedAt(steps, j, id)
    ensures i == j
  {
    if i < j {
      AcceptedIsSent(steps, i, id, j);
      EveryState(steps, j);
    } else if j < i {
      AcceptedIsSent(steps, j, id, i);
      EveryState(steps, i);
    }
  }

  /** What is in a channel was put there by an accepted answer. */
  lemma {:induction false} SentWasAccepted(steps: seq<Step>, n: nat, id: nat)
    requires n <= |steps| && id in At(steps, n).sent
    ensures exists i: nat :: i < n && AcceptedAt(steps, i, id) && steps[i].answer == At(steps, n).sent[id]
    decreases n
  {
    var s, step := At(steps, n - 1), steps[n - 1];
    EveryState(steps, n - 1);
    if id in s.sent {
      NextGrows(s, step);
      SentWasAccepted(steps, n - 1, id);
      var i: nat :| i < n - 1 && AcceptedAt(steps, i, id) && steps[i].answer == s.sent[id];
    } else {
      assert AcceptedAt(steps, n - 1, id);
    }
  }

  /** What the caller of `ask_approval` gets. */
  predicate Allowed(p: Phase) { p.Returned? && p.answer == Some(Verdict(true)) }

  /** An approval that comes back true was allowed by exactly one accepted
      `resolve_approval(id, true)` for its own id, made while it was pending, and
      no other answer for that id was ever accepted. */
  lemma {:induction false} AllowedWasResolved(steps: seq<Step>, n: nat, id: nat)
    requires n <= |steps| && id in At(steps, n).asks && Allowed(At(steps, n).asks[id].phase)
    ensures exists i: nat :: i < n && AcceptedAt(steps, i, id) && steps[i] == Resolve(Approval, id, Verdict(true))
                             && id in At(steps, i).approvals && forall j: nat :: AcceptedAt(steps, j, id) ==> j == i
  {
    EveryState(steps, n);
    SentWasAccepted(steps, n, id);
    var i: nat :| i < n && AcceptedAt(steps, i, id) && steps[i].answer == At(steps, n).sent[id];
    forall j: nat | AcceptedAt(steps, j, id)
      ensures j == i
    {
      AcceptedAtMostOnce(steps, i, j, id);
    }
  }

  /** The same for a question: text comes back only from the one accepted answer. */
  lemma {:induction false} AnsweredWasResolved(steps: seq<Step>, n: nat, id: nat, text: string)
    requires n <= |steps| && id in At(steps, n).asks && At(steps, n).asks[id].phase == Returned(Some(Words(text)))
    ensures exists i: nat :: i < n && AcceptedAt(steps, i, id) && steps[i] == Resolve(Question, id, Words(text))
                             && forall j: nat :: AcceptedAt(steps, j, id) ==> j == i
  {
    EveryState(steps, n);
    SentWasAccepted(steps, n, id);
    var i: nat :| i < n && AcceptedAt(steps, i, id) && steps[i].answer == At(steps, n).sent[id];
    forall j: nat | AcceptedAt(steps, j, id)
      ensures j == i
    {
      AcceptedAtMostOnce(steps, i, j, id);
    }
  }

  lemma {:induction false} ReturnedStep(s: State, step: Step, id: nat)
    requires Inv(s) && id in s.asks && s.asks[id].phase.Returned?
    ensures id in Next(s, step).asks && Next(s, step).asks[id] == s.asks[id]
  {}

  lemma {:induction false} ReturnedStays(steps: seq<Step>, m: nat, n: nat, id: nat)
    requires m <= n <= |steps| && id in At(steps, m).asks && At(steps, m).asks[id].phase.Returned?
    ensures id in At(steps, n).asks && At(steps, n).asks[id] == At(steps, m).asks[id]
    decreases n
  {
    if m < n {
      ReturnedStays(steps, m, n - 1, id);
      EveryState(steps, n - 1);
      ReturnedStep(At(steps, n - 1), steps[n - 1], id);
    }
  }

  /** Once an ask has returned its id is never pending again, so every later
      answer to it is refused. */
  lemma {:induction false} NeverPendingAfterReturn(steps: seq<Step>, m: nat, n: nat, id: nat)
    requires m <= n <= |steps| && id in At(steps, m).asks && At(steps, m).asks[id].phase.Returned?
    ensures id !in At(steps, n).approvals && id !in At(steps, n).questions
    ensures !AcceptedAt(steps, n, id)
  {
    ReturnedStays(steps, m, n, id);
    EveryState(steps, n);
  }

  // ------------------------------------------------ when an accepted answer counts

  /** Step `i` is that step, and it could be taken. */
  ghost predicate TakenAt(steps: seq<Step>, i: nat, step: Step) {
    i < |steps| && steps[i] == step && Enabled(At(steps, i), step)
  }

  /** No interrupt reaches the ask between the two steps. */
  ghost predicate Undisturbed(steps: seq<Step>, id: nat, k: nat, n: nat) {
    forall i: nat :: k < i < n ==> !TakenAt(steps, i, Cancel(id))
  }

  /** Answer `a` was accepted while the ask still waited, and no interrupt was seen
      after that. */
  ghost predicate Reached(steps: seq<Step>, n: nat, id: nat, a: Answer) {
    exists k: nat :: k < n && AcceptedAt(steps, k, id) && steps[k].answer == a
                     && InPhase(At(steps, k), id, Waiting) && Undisturbed(steps, id, k, n)
  }

  /** The ask is out of its wait without an answer. */
  predicate Lost(p: Phase) { p == Woken(None) || p == Returned(None) || p == Dropped }

  lemma {:induction false} LostStep(s: State, step: Step, id: nat)
    requires Inv(s) && id in s.asks && Lost(s.asks[id].phase)
    ensures id in Next(s, step).asks && Lost(Next(s, step).asks[id].phase)
  {}

  lemma {:induction false} LostStays(steps: seq<Step>, m: nat, n: nat, id: nat)
    requires m <= n <= |steps| && id in At(steps, m).asks && Lost(At(steps, m).asks[id].phase)
    ensures id in At(steps, n).asks && Lost(At(steps, n).asks[id].phase)
    decreases n
  {
    if m < n {
      LostStays(steps, m, n - 1, id);
      EveryState(steps, n - 1);
      LostStep(At(steps, n - 1), steps[n - 1], id);
    }
  }

  /** The ask waits with answer `a` in its channel, or has taken it from there, or
      was dropped. */
  predicate Holds(s: State, id: nat, a: Answer) {
    && id in s.sent && s.sent[id] == a && id in s.asks
    && s.asks[id].phase in {Waiting, Woken(Some(a)), Returned(Some(a)), Dropped}
  }

  lemma {:induction false} HoldsStep(s: State, step: Step, id: nat, a: Answer)
    requires Inv(s) && Holds(s, id, a) && !(step == Cancel(id) && Enabled(s, step))
    ensures Holds(Next(s, step), id, a)
  {}

  /** An ask that is sent its answer while it waits keeps it, short of an interrupt
      or of being dropped. */
  lemma {:induction false} AnswerArrives(steps: seq<Step>, k: nat, n: nat, id: nat)
    requires k < n <= |steps| && AcceptedAt(steps, k, id) && InPhase(At(steps, k), id, Waiting)
             && Undisturbed(steps, id, k, n)
    ensures Holds(At(steps, n), id, steps[k].answer)
    decreases n
  {
    if n > k + 1 {
      AnswerArrives(steps, k, n - 1, id);
      EveryState(steps, n - 1);
      assert !TakenAt(steps, n - 1, Cancel(id));
      HoldsStep(At(steps, n - 1), steps[n - 1], id, steps[k].answer);
    }
  }

  /** An answer accepted for an ask that returned comes back from it if and only if
      the ask still waited when it was accepted and no interrupt was seen between
      that and its waking. */
  lemma {:induction false} AcceptedCountsIff(steps: seq<Step>, n: nat, id: nat, k: nat)
    requires k < n <= |steps| && id in At(steps, n).asks && At(steps, n).asks[id].phase.Returned?
    requires AcceptedAt(steps, k, id)
    ensures At(steps, n).asks[id].phase == Returned(Some(steps[k].answer))
            <==> InPhase(At(steps, k), id, Waiting) && Undisturbed(steps, id, k, n)
  {
    EveryState(steps, k);
    if !InPhase(At(steps, k), id, Waiting) {
      LostStays(steps, k, n, id);
    } else if Undisturbed(steps, id, k, n) {
      AnswerArrives(steps, k, n, id);
    } else {
      var i: nat :| k < i < n && TakenAt(steps, i, Cancel(id));
      LostStays(steps, i + 1, n, id);
    }
  }

  /** What an ask that returned brings back: answer `a` if and only if `a` was
      accepted while it waited and no interrupt was seen after that. */
  lemma {:induction false} ReturnsIff(steps: seq<Step>, n: nat, id: nat, a: Answer)
    requires n <= |steps| && id in At(steps, n).asks && At(steps, n).asks[id].phase.Returned?
    ensures At(steps, n).asks[id].phase == Returned(Some(a)) <==> Reached(steps, n, id, a)
  {
    EveryState(steps, n);
    if At(steps, n).asks[id].phase == Returned(Some(a)) {
      SentWasAccepted(steps, n, id);
      var k: nat :| k < n && AcceptedAt(steps, k, id) && steps[k].answer == At(steps, n).sent[id];
      AcceptedCountsIff(steps, n, id, k);
    }
    if Reached(steps, n, id, a) {
      var k: nat :| k < n && AcceptedAt(steps, k, id) && steps[k].answer == a
                    && InPhase(At(steps, k), id, Waiting) && Undisturbed(steps, id, k, n);
      AcceptedCountsIff(steps, n, id, k);
    }
  }

  /** The two ways to lose an accepted allow, which is reported as pending while the
      ask comes back denied: it arrives between the timeout and the removal, or an
      interrupt is seen before the ask wakes. */
  lemma {:induction false} LateAllowIsLost()
    ensures var steps := [Mint(Approval), Insert(1), Timeout(1), Resolve(Approval, 1, Verdict(true)), Remove(1)];
            AcceptedAt(steps, 3, 1) && At(steps, 5).asks[1].phase == Returned(None)
  {
    var steps := [Mint(Approval), Insert(1), Timeout(1), Resolve(Approval, 1, Verdict(true)), Remove(1)];
    assert At(steps, 1) == State(1, map[1 := Ask(Approval, Minted)], {}, {}, map[]);
    assert At(steps, 2) == State(1, map[1 := Ask(Approval, Waiting)], {1}, {}, map[]);
    assert At(steps, 3) == State(1, map[1 := Ask(Approval, Woken(None))], {1}, {}, map[]);
    assert At(steps, 4) == State(1, map[1 := Ask(Approval, Woken(None))], {}, {}, map[1 := Verdict(true)]);
  }

  lemma {:induction false} InterruptLosesAllow()
    ensures var steps := [Mint(Approval), Insert(1), Resolve(Approval, 1, Verdict(true)), Cancel(1), Remove(1)];
            AcceptedAt(steps, 2, 1) && At(steps, 5).asks[1].phase == Returned(None)
  {
    var steps := [Mint(Approval), Insert(1), Resolve(Approval, 1, Verdict(true)), Cancel(1), Remove(1)];
    assert At(steps, 1) == State(1, map[1 := Ask(Approval, Minted)], {}, {}, map[]);
    assert At(steps, 2) == State(1, map[1 := Ask(Approval, Waiting)], {1}, {}, map[]);
    assert At(steps, 3) == State(1, map[1 := Ask(Approval, Waiting)], {}, {}, map[1 := Verdict(true)]);
    assert At(steps, 4) == State(1, map[1 := Ask(Approval, Woken(None))], {}, {}, map[1 := Verdict(true)]);
  }

  // ------------------------------------------------------- when an answer is accepted

  /** An ask that waits, or has just woken, and was sent nothing is pending. */
  ghost predicate Listed(s: State) {
    forall id :: id in s.asks && (s.asks[id].phase.Waiting? || s.asks[id].phase.Woken?) && id !in s.sent ==>
      id in Pending(s, s.asks[id].kind)
  }

  lemma {:induction false} ListedStep(s: State, step: Step)
    requires Inv(s) && Listed(s)
    ensures Listed(Next(s, step))
  {}

  lemma {:induction false} EveryListed(steps: seq<Step>, n: nat)
    requires n <= |steps|
    ensures Listed(At(steps, n))
    decreases n
  {
    if n > 0 {
      EveryListed(steps, n - 1);
      EveryState(steps, n - 1);
      ListedStep(At(steps, n - 1), steps[n - 1]);
    }
  }

  /** Which answers are accepted: of an ask that waits or has just woken, exactly one,
      the first that fits its kind; of an ask that has not inserted its sender or has
      returned, and of no ask at all, none. */
  lemma {:induction false} AcceptedIff(steps: seq<Step>, n: nat, id: nat, kind: Kind, answer: Answer)
    requires n <= |steps|
    ensures var s := At(steps, n);
            && (id in s.asks && (s.asks[id].phase.Waiting? || s.asks[id].phase.Woken?) ==>
                  (Accepts(s, Resolve(kind, id, answer)) <==>
                     && kind == s.asks[id].kind && (answer.Verdict? <==> kind == Approval)
                     && forall k: nat :: k < n ==> !AcceptedAt(steps, k, id)))
            && (id !in s.asks || s.asks[id].phase.Minted? || s.asks[id].phase.Returned? ==>
                  !Accepts(s, Resolve(kind, id, answer)))
  {
    EveryState(steps, n);
    EveryListed(steps, n);
    var s := At(steps, n);
    if id in s.sent {
      SentWasAccepted(steps, n, id);
    } else {
      forall k: nat | k < n
        ensures !AcceptedAt(steps, k, id)
      {
        if AcceptedAt(steps, k, id) { AcceptedIsSent(steps, k, id, n); }
      }
    }
  }
}
