/** One durable objective per session (crates/agents/src/goal.rs): phase changes
    under compare-and-set on a revision, with authority rules and a round cap. */
module Goal {
  import opened Text

  /** `GoalPhase` of crates/protocol/src/lib.rs. */
  datatype Phase = Active | Paused | Completed | Blocked

  predicate IsTerminal(p: Phase) { p == Completed || p == Blocked }

  const MAX_GOAL_ROUNDS: nat := 256
  const BLOCKED_AFTER_CONSECUTIVE_ROUNDS: nat := 3

  datatype Goal = Goal(
    id: nat,
    revision: nat,
    objective: string,
    phase: Phase,
    roundsStarted: nat,
    maxRounds: nat,
    blocker: Option<string>)

  datatype Action = Pause | Resume | Complete | Block

  datatype Result<T> = Ok(value: T) | Refused

  function Clamp(n: nat, lo: nat, hi: nat): (r: nat)
    requires lo <= hi
    ensures lo <= r <= hi && (lo <= n <= hi ==> r == n) && (n < lo ==> r == lo) && (n > hi ==> r == hi)
  {
    if n < lo then lo else if n > hi then hi else n
  }

  function New(id: nat, objective: string, maxRounds: nat): Goal {
    Goal(id, 1, objective, Active, 0, Clamp(maxRounds, 1, MAX_GOAL_ROUNDS), None)
  }

  predicate RoundsLeft(g: Goal) { g.phase == Active && g.roundsStarted < g.maxRounds }

  function PhaseOf(a: Action): Phase {
    match a
    case Pause => Paused
    case Resume => Active
    case Complete => Completed
    case Block => Blocked
  }

  /** Whether this caller may take this action now. */
  predicate Authorized(a: Action, g: Goal, human: bool, depth: nat) {
    && depth == 0
    && ((a == Pause || a == Resume) ==> human)
    && (a == Block && !human ==> g.roundsStarted >= BLOCKED_AFTER_CONSECUTIVE_ROUNDS)
  }

  function Apply(g: Goal, revision: nat, a: Action, note: Option<string>): Result<Goal> {
    if revision != g.revision then Refused
    else if IsTerminal(g.phase) && a != Resume then Refused
    else if a == Block && (note.None? || Trim(note.value) == "") then Refused
    else Ok(g.(
            revision := g.revision + 1,
            phase := PhaseOf(a),
            blocker := match a
                       case Block => Some(Trim(note.value))
                       case Resume => None
                       case _ => g.blocker))
  }

  function Edit(g: Goal, revision: nat, objective: string): Result<Goal> {
    if revision != g.revision then Refused
    else if Trim(objective) == "" then Refused
    else if IsTerminal(g.phase) then Refused
    else Ok(g.(revision := g.revision + 1, objective := Trim(objective)))
  }

  function StartRound(g: Goal): Goal {
    g.(revision := g.revision + 1, roundsStarted := g.roundsStarted + 1)
  }

  // ------------------------------------------------------------------ histories

  /** What can happen to a goal: an action by some caller who presents a
      revision, a person's edit, or the driver opening a round. */
  datatype Event =
    | Act(action: Action, human: bool, depth: nat, revision: nat, note: Option<string>)
    | Reword(revision: nat, objective: string)
    | Round

  /** The goal after the event, if the event was accepted. */
  function Try(g: Goal, e: Event): Result<Goal> {
    match e
    case Act(a, human, depth, revision, note) =>
      if Authorized(a, g, human, depth) then Apply(g, revision, a, note) else Refused
    case Reword(revision, objective) => Edit(g, revision, objective)
    case Round => if RoundsLeft(g) then Ok(StartRound(g)) else Refused
  }

  function After(g: Goal, e: Event): Goal {
    match Try(g, e) case Ok(next) => next case Refused => g
  }

  /** The goal after the first `n` events of a history. */
  function At(g: Goal, events: seq<Event>, n: nat): Goal
    requires n <= |events|
  {
    if n == 0 then g else After(At(g, events, n - 1), events[n - 1])
  }

  /** How many of the first `n` events were accepted. */
  function Accepted(g: Goal, events: seq<Event>, n: nat): nat
    requires n <= |events|
  {
    if n == 0 then 0
    else Accepted(g, events, n - 1) + (if Try(At(g, events, n - 1), events[n - 1]).Ok? then 1 else 0)
  }

  function RoundsRun(g: Goal, events: seq<Event>, n: nat): nat
    requires n <= |events|
  {
    if n == 0 then 0
    else RoundsRun(g, events, n - 1) + (if events[n - 1].Round? && RoundsLeft(At(g, events, n - 1)) then 1 else 0)
  }

  ghost predicate Inv(g: Goal) {
    && g.roundsStarted <= g.maxRounds <= MAX_GOAL_ROUNDS
    && 1 <= g.maxRounds
    && (g.blocker.Some? <==> g.phase == Blocked)
    && (g.blocker.Some? ==> g.blocker.value != "")
  }

  lemma AfterKeeps(g: Goal, e: Event)
    requires Inv(g)
    ensures Inv(After(g, e))
    ensures After(g, e).maxRounds == g.maxRounds && After(g, e).id == g.id
  {}

  /** In every reachable state the round count respects the cap set at creation,
      which is at most 256, and a blocker is named exactly while blocked. */
  lemma {:induction false} EveryState(id: nat, objective: string, maxRounds: nat, events: seq<Event>, n: nat)
    requires n <= |events|
    ensures var g0 := New(id, objective, maxRounds);
            var g := At(g0, events, n);
            && Inv(g)
            && g.maxRounds == g0.maxRounds && g.id == id
            && g.revision == 1 + Accepted(g0, events, n)
            && g.roundsStarted == RoundsRun(g0, events, n)
    decreases n
  {
    if n > 0 {
      EveryState(id, objective, maxRounds, events, n - 1);
      AfterKeeps(At(New(id, objective, maxRounds), events, n - 1), events[n - 1]);
    }
  }

  /** Whatever is done to a goal over its whole life, resumed as often as one
      likes, no more rounds run than its cap allows, and never more than 256. */
  lemma {:induction false} RoundsAreCapped(id: nat, objective: string, maxRounds: nat, events: seq<Event>)
    ensures RoundsRun(New(id, objective, maxRounds), events, |events|)
            <= Clamp(maxRounds, 1, MAX_GOAL_ROUNDS) <= 256
  {
    EveryState(id, objective, maxRounds, events, |events|);
  }

  /** The revision only grows, and two states with the same revision are the same
      state. */
  lemma {:induction false} SameRevisionSameGoal(g: Goal, events: seq<Event>, i: nat, j: nat)
    requires i <= j <= |events|
    ensures At(g, events, i).revision <= At(g, events, j).revision
    ensures At(g, events, i).revision == At(g, events, j).revision ==> At(g, events, i) == At(g, events, j)
    decreases j
  {
    if i < j { SameRevisionSameGoal(g, events, i, j - 1); }
  }

  function PresentedRevision(e: Event): Option<nat> {
    match e
    case Act(_, _, _, revision, _) => Some(revision)
    case Reword(revision, _) => Some(revision)
    case Round => None
  }

  /** No lost update: a caller who read the goal at step `i` and presents the
      revision it saw at step `j` is accepted only if nothing changed in between,
      so an accepted change was computed from the very goal it replaces. */
  lemma {:induction false} AcceptedOnCurrent(g: Goal, events: seq<Event>, i: nat, j: nat)
    requires i <= j < |events|
    requires PresentedRevision(events[j]) == Some(At(g, events, i).revision)
    requires Try(At(g, events, j), events[j]).Ok?
    ensures At(g, events, j) == At(g, events, i)
  {
    SameRevisionSameGoal(g, events, i, j);
  }

  /** After any accepted event, everybody who still presents the revision from
      before it is refused, for ever. */
  lemma {:induction false} StaleIsRefused(g: Goal, events: seq<Event>, j: nat, k: nat)
    requires j < k < |events| && Try(At(g, events, j), events[j]).Ok?
    requires PresentedRevision(events[k]).Some? && PresentedRevision(events[k]).value <= At(g, events, j).revision
    ensures Try(At(g, events, k), events[k]).Refused?
  {
    SameRevisionSameGoal(g, events, j + 1, k);
    assert At(g, events, j + 1).revision == At(g, events, j).revision + 1;
  }

  predicate IsHumanResume(e: Event) { e.Act? && e.action == Resume && e.human && e.depth == 0 }

  /** Only a person at top level brings a goal back: without such a resume a goal
      that left Active never returns to it, and no further round runs. */
  lemma {:induction false} NeverBackByItself(g: Goal, events: seq<Event>, i: nat, j: nat)
    requires i <= j <= |events| && At(g, events, i).phase != Active
    requires forall k :: i <= k < j ==> !IsHumanResume(events[k])
    ensures At(g, events, j).phase != Active
    ensures At(g, events, j).roundsStarted == At(g, events, i).roundsStarted
    decreases j
  {
    if i < j {
      NeverBackByItself(g, events, i, j - 1);
      assert !IsHumanResume(events[j - 1]);
    }
  }

  /** Exactly what changes a completed or blocked goal. */
  lemma {:induction false} TerminalChangesIff(g: Goal, e: Event)
    requires IsTerminal(g.phase)
    ensures After(g, e) != g <==> IsHumanResume(e) && e.revision == g.revision
  {}

  /** A completed or blocked goal is frozen until a person resumes it: every other
      event leaves it as it is. */
  lemma {:induction false} TerminalIsFrozen(g: Goal, events: seq<Event>, i: nat, j: nat)
    requires i <= j <= |events| && IsTerminal(At(g, events, i).phase)
    requires forall k :: i <= k < j ==> !IsHumanResume(events[k])
    ensures At(g, events, j) == At(g, events, i)
    decreases j
  {
    if i < j {
      TerminalIsFrozen(g, events, i, j - 1);
      TerminalChangesIff(At(g, events, i), events[j - 1]);
    }
  }

  // ------------------------------------------------- acceptance, and what it leaves

  /** Which event a goal accepts: an action at top level that presents the current
      revision, pause and resume from a person only, anything but a resume on a live
      goal only, a block with a stated reason and by an automatic turn not before the
      third round; a stated rewording of a live goal at the current revision; a round
      of an active goal below its cap. */
  lemma {:induction false} AcceptedIff(g: Goal, e: Event)
    ensures var live := g.phase == Active || g.phase == Paused;
            Try(g, e).Ok? <==>
              match e
              case Act(Pause, human, depth, revision, _) => human && depth == 0 && revision == g.revision && live
              case Act(Resume, human, depth, revision, _) => human && depth == 0 && revision == g.revision
              case Act(Complete, _, depth, revision, _) => depth == 0 && revision == g.revision && live
              case Act(Block, human, depth, revision, note) =>
                && depth == 0 && revision == g.revision && live && (human || g.roundsStarted >= 3)
                && note.Some? && !Blank(note.value)
              case Reword(revision, objective) => revision == g.revision && live && !Blank(objective)
              case Round => g.phase == Active && g.roundsStarted < g.maxRounds
  {
    match e
    case Act(_, _, _, _, note) => if note.Some? { TrimBlank(note.value); }
    case Reword(_, objective) => TrimBlank(objective);
    case Round =>
  }

  predicate AcceptedAt(g: Goal, events: seq<Event>, k: nat)
    requires k < |events|
  {
    Try(At(g, events, k), events[k]).Ok?
  }

  /** The phase that the history tells: where the last accepted action led. */
  function PhaseTold(g: Goal, events: seq<Event>, n: nat): Phase
    requires n <= |events|
  {
    if n == 0 then Active
    else if events[n - 1].Act? && AcceptedAt(g, events, n - 1) then
      match events[n - 1].action
      case Pause => Paused
      case Resume => Active
      case Complete => Completed
      case Block => Blocked
    else PhaseTold(g, events, n - 1)
  }

  /** The reason that the last accepted action stated, if it was a block. */
  function BlockerTold(g: Goal, events: seq<Event>, n: nat): Option<string>
    requires n <= |events|
  {
    if n == 0 then None
    else
      var e := events[n - 1];
      if e.Act? && AcceptedAt(g, events, n - 1) then
        if e.action == Block && e.note.Some? then Some(Trim(e.note.value)) else None
      else BlockerTold(g, events, n - 1)
  }

  /** The objective as last accepted. */
  function ObjectiveTold(g: Goal, objective: string, events: seq<Event>, n: nat): string
    requires n <= |events|
  {
    if n == 0 then objective
    else if events[n - 1].Reword? && AcceptedAt(g, events, n - 1) then Trim(events[n - 1].objective)
    else ObjectiveTold(g, objective, events, n - 1)
  }

  /** A goal is what its history tells: the phase the last accepted action led to, the
      blocker it stated, the objective as last worded. */
  lemma {:induction false} GoalIsItsHistory(
    id: nat, objective: string, maxRounds: nat, events: seq<Event>, n: nat)
    requires n <= |events|
    ensures var g0 := New(id, objective, maxRounds);
            var g := At(g0, events, n);
            && g.phase == PhaseTold(g0, events, n)
            && g.blocker == BlockerTold(g0, events, n)
            && g.objective == ObjectiveTold(g0, objective, events, n)
    decreases n
  {
    if n > 0 {
      GoalIsItsHistory(id, objective, maxRounds, events, n - 1);
      EveryState(id, objective, maxRounds, events, n - 1);
    }
  }
}
