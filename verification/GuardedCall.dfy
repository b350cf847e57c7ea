/** One guarded tool call (crates/agents/src/subagent.rs with
    crates/agents/src/pipeline.rs): pre-execute decisions, deny-only guards,
    approval, the body, and the post chain. */
module GuardedCall {
  import opened Text
  import opened FilePaging

  datatype PreDecision =
    | Allow
    | AllowWith(extra: seq<string>)
    | Deny(reason: string)
    | Ask(reason: string)

  datatype SkillOutcome = SkillOutcome(ok: bool, summary: string)

  datatype PostDecision =
    | Accept(summary: string, extra: seq<string>)
    | Veto(feedback: string, extra: seq<string>)

  /** What one policy says about the call at hand. */
  datatype Policy = Policy(
    pre: PreDecision,
    guard: Option<string>,
    post: SkillOutcome -> PostDecision)

  /** How an Ask can be answered: refused by the session's approval policy, sent
      to a reachable human (whose answer is `allow`), or answerable by nobody. */
  datatype Asking = Asking(denied: bool, reachable: bool, allow: bool)

  datatype Approval = AllowedOnce | Denied

  predicate Allows(d: PreDecision) { d.Allow? || d.AllowWith? }

  // ------------------------------------------------------------ specification

  /** The first decision that is not an allow. */
  function Verdict(ps: seq<Policy>): PreDecision {
    if ps == [] then Allow
    else if Allows(ps[0].pre) then Verdict(ps[1..])
    else ps[0].pre
  }

  /** The first guard that objects. */
  function Objection(ps: seq<Policy>): Option<string> {
    if ps == [] then None
    else if ps[0].guard.Some? then ps[0].guard
    else Objection(ps[1..])
  }

  /** Context attached by the allowing policies before the verdict. */
  function AllowContext(ps: seq<Policy>): seq<string> {
    if ps == [] then []
    else match ps[0].pre
      case Allow => AllowContext(ps[1..])
      case AllowWith(extra) => extra + AllowContext(ps[1..])
      case _ => []
  }

  predicate Granted(ask: Asking) { !ask.denied && ask.reachable && ask.allow }

  /** The body runs. */
  predicate Executes(ps: seq<Policy>, ask: Asking) {
    && Objection(ps).None?
    && (Verdict(ps).Allow? || (Verdict(ps).Ask? && Granted(ask)))
  }

  /** An Ask survived the guards. */
  predicate AskSurvives(ps: seq<Policy>) { Verdict(ps).Ask? && Objection(ps).None? }

  function Refusal(ask: Asking, reason: string): string {
    (if ask.denied then "approval refused (" else "approval denied (") + reason + ")"
  }

  /** What the model reads instead of a result, when the body does not run. */
  function Denial(ps: seq<Policy>, ask: Asking): (r: Option<string>)
    ensures r.None? <==> Executes(ps, ask)
  {
    VerdictIs(ps);
    match Verdict(ps)
    case Deny(reason) => Some(reason)
    case Allow => Objection(ps)
    case Ask(reason) => if Objection(ps).Some? then Objection(ps) else if Granted(ask) then None
        else Some(Refusal(ask, reason))
  }

  /** How many guards are asked before the first that objects, that one included. */
  function Asked(ps: seq<Policy>): nat {
    if ps == [] then 0 else if ps[0].guard.Some? then 1 else 1 + Asked(ps[1..])
  }

  /** How many guards are asked at all. */
  function Consulted(ps: seq<Policy>): nat { if Verdict(ps).Deny? then 0 else Asked(ps) }

  // -------------------------------------------------------------- the pre-stage

  method PreDecide(ps: seq<Policy>, ask: Asking)
    returns (denial: Option<string>, record: Option<Approval>, context: seq<string>, consulted: nat)
    ensures denial == Denial(ps, ask) && consulted == Consulted(ps)
    ensures denial.None? <==> Executes(ps, ask)
    ensures record.Some? <==> AskSurvives(ps)
    ensures record.Some? ==> (record.value == AllowedOnce <==> Executes(ps, ask))
    ensures context == AllowContext(ps)
  {
    var verdict: Option<PreDecision> := None;
    context, consulted := [], 0;
    var i := 0;
    while i < |ps|
      invariant 0 <= i <= |ps| && verdict.None?
      invariant Verdict(ps) == Verdict(ps[i..])
      invariant AllowContext(ps) == context + AllowContext(ps[i..])
    {
      assert ps[i..][1..] == ps[i + 1..];
      match ps[i].pre {
        case Allow =>
        case AllowWith(extra) => context := context + extra;
        case other =>
          verdict := Some(other);
          assert context + [] == context;
          break;
      }
      i := i + 1;
    }
    var final := if verdict.Some? then verdict.value else Allow;
    assert final == Verdict(ps) && context == AllowContext(ps);
    if final.Allow? || final.Ask? {
      var j := 0;
      while j < |ps|
        invariant 0 <= j <= |ps| && consulted == j && Asked(ps) == j + Asked(ps[j..])
        invariant Objection(ps) == Objection(ps[j..])
        invariant final == Verdict(ps)
      {
        assert ps[j..][1..] == ps[j + 1..];
        consulted := consulted + 1;
        if ps[j].guard.Some? {
          return ps[j].guard, None, context, consulted;
        }
        j := j + 1;
      }
    }
    match final {
      case Allow | AllowWith(_) =>
        return None, None, context, consulted;
      case Deny(reason) =>
        return Some(reason), None, context, consulted;
      case Ask(reason) =>
        if ask.denied {
          return Some(Refusal(ask, reason)), Some(Denied), context, consulted;
        }
        var allowed := ask.reachable && ask.allow;
        if allowed {
          return None, Some(AllowedOnce), context, consulted;
        } else {
          return Some(Refusal(ask, reason)), Some(Denied), context, consulted;
        }
    }
  }

  // ------------------------------------------------------ what the guards secure

  /** No guard is asked past a denial, although there are guards: exactly then. */
  lemma {:induction false} GuardsConsultedIff(ps: seq<Policy>)
    ensures Consulted(ps) == 0 <==> ps == [] || Verdict(ps).Deny?
  {}

  /** A denial in front of a guard that would object, for its own reason: the guard
      is not asked and the model reads the denial's reason. */
  lemma {:induction false} DenialSilencesGuard(post: SkillOutcome -> PostDecision, reason: string, objection: string,
      ask: Asking)
    ensures var ps := [Policy(Deny(reason), None, post), Policy(Allow, Some(objection), post)];
            Consulted(ps) == 0 && Denial(ps, ask) == Some(reason)
  {}

  predicate AllowsBefore(ps: seq<Policy>, k: nat)
    requires k <= |ps|
  {
    forall i :: 0 <= i < k ==> Allows(ps[i].pre)
  }

  /** The body runs exactly when no guard objects, and either every policy allows
      or the first one that does not only asks and the asking is granted. */
  lemma {:induction false} ExecutesIff(ps: seq<Policy>, ask: Asking)
    ensures Executes(ps, ask) <==>
      && (forall i :: 0 <= i < |ps| ==> ps[i].guard.None?)
      && ((forall i :: 0 <= i < |ps| ==> ps[i].pre.Allow? || ps[i].pre.AllowWith?)
          || (!ask.denied && ask.reachable && ask.allow
              && exists k :: 0 <= k < |ps| && ps[k].pre.Ask? && AllowsBefore(ps, k)))
  {
    ObjectionIff(ps);
    VerdictIs(ps);
  }

  /** The guard of policy `k` is the first that objects. */
  predicate ObjectsFirst(ps: seq<Policy>, k: nat)
    requires k < |ps|
  {
    ps[k].guard.Some? && forall i :: 0 <= i < k ==> ps[i].guard.None?
  }

  /** The first guard that objects gives the reason. */
  lemma {:induction false} ObjectionIsFirst(ps: seq<Policy>, k: nat)
    requires k < |ps| && ObjectsFirst(ps, k)
    ensures Objection(ps) == ps[k].guard
    decreases k
  {
    if k > 0 {
      assert forall i :: 0 <= i < k - 1 ==> ps[1..][i] == ps[i + 1];
      ObjectionIsFirst(ps[1..], k - 1);
    }
  }

  /** What a call that does not run is refused with: the reason of the first decision
      that is not an allow if that denies; else the first objection; else the reason of
      the Ask that nobody granted. */
  lemma {:induction false} DenialIs(ps: seq<Policy>, ask: Asking, k: nat)
    requires k <= |ps| && AllowsBefore(ps, k) && (k < |ps| ==> !Allows(ps[k].pre))
    ensures k < |ps| && ps[k].pre.Deny? ==> Denial(ps, ask) == Some(ps[k].pre.reason)
    ensures k == |ps| || ps[k].pre.Ask? ==>
              forall g :: 0 <= g < |ps| && ObjectsFirst(ps, g) ==> Denial(ps, ask) == ps[g].guard
    ensures k < |ps| && ps[k].pre.Ask? && Objection(ps).None? ==>
              Denial(ps, ask) == if !ask.denied && ask.reachable && ask.allow then None
                                 else Some(Refusal(ask, ps[k].pre.reason))
  {
    VerdictIs(ps);
    forall g | 0 <= g < |ps| && ObjectsFirst(ps, g)
      ensures Objection(ps) == ps[g].guard
    {
      ObjectionIsFirst(ps, g);
    }
  }

  /** Lists one after the other. */
  function Flat(lists: seq<seq<string>>): seq<string> {
    if lists == [] then [] else lists[0] + Flat(lists[1..])
  }

  lemma {:induction false} FlatEnd(lists: seq<seq<string>>, last: seq<string>)
    ensures Flat(lists + [last]) == Flat(lists) + last
    decreases |lists|
  {
    var all := lists + [last];
    if lists == [] {
      assert all == [last] && all[1..] == [] && last + [] == last;
    } else {
      assert all[0] == lists[0] && all[1..] == lists[1..] + [last];
      FlatEnd(lists[1..], last);
    }
  }

  /** What a policy adds to the call it allows. */
  function AddedBy(pre: PreDecision): seq<string> {
    match pre case AllowWith(extra) => extra case _ => []
  }

  /** The context of a call is what the policies in front of the first that does not
      allow add, in order. */
  lemma {:induction false} AllowContextIs(ps: seq<Policy>, k: nat)
    requires k <= |ps| && AllowsBefore(ps, k) && (k < |ps| ==> !Allows(ps[k].pre))
    ensures AllowContext(ps) == Flat(seq(k, i requires 0 <= i < k => AddedBy(ps[i].pre)))
    decreases k
  {
    if k > 0 {
      var rest := ps[1..];
      assert forall i :: 0 <= i < |rest| ==> rest[i] == ps[i + 1];
      AllowContextIs(rest, k - 1);
      var all := seq(k, i requires 0 <= i < k => AddedBy(ps[i].pre));
      assert all[1..] == seq(k - 1, i requires 0 <= i < k - 1 => AddedBy(rest[i].pre));
      assert all[0] == AddedBy(ps[0].pre);
    }
  }

  lemma {:induction false} ObjectionIff(ps: seq<Policy>)
    ensures Objection(ps).None? <==> forall i :: 0 <= i < |ps| ==> ps[i].guard.None?
  {
    if ps != [] {
      ObjectionIff(ps[1..]);
      assert forall i :: 0 < i < |ps| ==> ps[i] == ps[1..][i - 1];
      assert forall i :: 0 <= i < |ps[1..]| ==> ps[1..][i] == ps[i + 1];
    }
  }

  /** The verdict, told by positions. */
  lemma {:induction false} VerdictIs(ps: seq<Policy>)
    ensures !Verdict(ps).AllowWith?
    ensures Verdict(ps).Allow? <==> forall i :: 0 <= i < |ps| ==> Allows(ps[i].pre)
    ensures !Verdict(ps).Allow? ==>
              exists k :: 0 <= k < |ps| && ps[k].pre == Verdict(ps) && AllowsBefore(ps, k)
    ensures forall k :: 0 <= k < |ps| && !Allows(ps[k].pre) && AllowsBefore(ps, k) ==> Verdict(ps) == ps[k].pre
  {
    if ps != [] && Allows(ps[0].pre) {
      var t := ps[1..];
      VerdictIs(t);
      assert forall i :: 0 < i < |ps| ==> ps[i] == t[i - 1];
      assert forall i :: 0 <= i < |t| ==> t[i] == ps[i + 1];
      if !Verdict(t).Allow? {
        var k :| 0 <= k < |t| && t[k].pre == Verdict(t) && forall i :: 0 <= i < k ==> Allows(t[i].pre);
        assert ps[k + 1].pre == Verdict(ps) && forall i :: 0 <= i < k + 1 ==> Allows(ps[i].pre);
      }
      forall k | 0 <= k < |ps| && !Allows(ps[k].pre) && forall i :: 0 <= i < k ==> Allows(ps[i].pre)
        ensures Verdict(ps) == ps[k].pre
      {
        assert t[k - 1] == ps[k];
        assert forall i :: 0 <= i < k - 1 ==> Allows(t[i].pre);
      }
    } else if ps != [] {
      assert ps[0].pre == Verdict(ps);
    }
  }

  /** A policy that takes part only through its guard. */
  predicate GuardOnly(p: Policy) { Allows(p.pre) }

  /** The policies whose pre-execute stage says something. */
  function Deciding(ps: seq<Policy>): seq<Policy> {
    if ps == [] then [] else if GuardOnly(ps[0]) then Deciding(ps[1..]) else [ps[0]] + Deciding(ps[1..])
  }

  lemma {:induction false} VerdictOfDeciding(ps: seq<Policy>)
    ensures Verdict(ps) == if Deciding(ps) == [] then Allow else Deciding(ps)[0].pre
  {
    if ps != [] { VerdictOfDeciding(ps[1..]); }
  }

  lemma {:induction false} DecidingConcat(ps: seq<Policy>, qs: seq<Policy>)
    ensures Deciding(ps + qs) == Deciding(ps) + Deciding(qs)
    decreases |ps|
  {
    if ps == [] {
      assert ps + qs == qs;
    } else {
      assert (ps + qs)[1..] == ps[1..] + qs;
      DecidingConcat(ps[1..], qs);
    }
  }

  lemma {:induction false} ObjectionConcat(ps: seq<Policy>, qs: seq<Policy>)
    ensures Objection(ps + qs).None? <==> Objection(ps).None? && Objection(qs).None?
    decreases |ps|
  {
    if ps == [] {
      assert ps + qs == qs;
    } else {
      assert (ps + qs)[1..] == ps[1..] + qs;
      ObjectionConcat(ps[1..], qs);
    }
  }

  lemma {:induction false} GuardBetween(a: seq<Policy>, g: Policy, b: seq<Policy>)
    requires GuardOnly(g)
    ensures Verdict(a + [g] + b) == Verdict(a + b)
    ensures Objection(a + [g] + b).None? <==> Objection(a + b).None? && g.guard.None?
  {
    DecidingConcat(a, b);
    DecidingConcat(a + [g], b);
    DecidingConcat(a, [g]);
    assert Deciding([g]) == [];
    VerdictOfDeciding(a + b);
    VerdictOfDeciding(a + [g] + b);
    ObjectionConcat(a, b);
    ObjectionConcat(a + [g], b);
    ObjectionConcat(a, [g]);
  }

  /** Guards are monotone: a guard-only policy put anywhere into the list can only
      take executions away, and an approval that is still asked for was asked for
      without it. */
  lemma {:induction false} GuardsOnlyRemove(ps: seq<Policy>, g: Policy, i: nat, ask: Asking)
    requires i <= |ps| && GuardOnly(g)
    ensures var more := ps[..i] + [g] + ps[i..];
            && (Executes(more, ask) <==> Executes(ps, ask) && g.guard.None?)
            && (AskSurvives(more) <==> AskSurvives(ps) && g.guard.None?)
  {
    GuardBetween(ps[..i], g, ps[i..]);
    assert ps == ps[..i] + ps[i..];
  }

  /** Order matters only among the policies that decide: two lists of the same
      policies with the deciding ones in the same order treat the call alike. */
  lemma {:induction false} GuardOrderIsIrrelevant(ps: seq<Policy>, qs: seq<Policy>, ask: Asking)
    requires multiset(ps) == multiset(qs) && Deciding(ps) == Deciding(qs)
    ensures Executes(ps, ask) <==> Executes(qs, ask)
    ensures AskSurvives(ps) <==> AskSurvives(qs)
  {
    VerdictOfDeciding(ps);
    VerdictOfDeciding(qs);
    if Objection(ps).None? { SameGuards(ps, qs); }
    if Objection(qs).None? { SameGuards(qs, ps); }
  }

  lemma {:induction false} SameGuards(ps: seq<Policy>, qs: seq<Policy>)
    requires multiset(ps) == multiset(qs) && Objection(ps).None?
    ensures Objection(qs).None?
  {
    ObjectionIff(ps);
    forall i | 0 <= i < |qs|
      ensures qs[i].guard.None?
    {
      assert qs[i] in multiset(qs);
      assert qs[i] in ps;
    }
    ObjectionIff(qs);
  }

  /** Among deciding policies order does matter: an earlier Ask shadows a later
      denial. */
  lemma {:induction false} AskShadowsDeny(post: SkillOutcome -> PostDecision, reason: string, ask: Asking)
    requires Granted(ask)
    ensures var a, d := Policy(Ask(reason), None, post), Policy(Deny(reason), None, post);
            Executes([a, d], ask) && !Executes([d, a], ask)
  {
    var a, d := Policy(Ask(reason), None, post), Policy(Deny(reason), None, post);
    ExecutesIff([a, d], ask);
    ExecutesIff([d, a], ask);
    assert [a, d][0].pre.Ask?;
    assert [d, a][0].pre.Deny?;
  }

  // -------------------------------------------------------------- the post chain

  function PostOf(ps: seq<Policy>, i: nat, outcome: SkillOutcome): PostDecision
    requires i < |ps|
  {
    ps[i].post(outcome)
  }

  /** The index of the first veto. */
  function FirstVeto(ps: seq<Policy>, outcome: SkillOutcome, i: nat): (r: Option<nat>)
    requires i <= |ps|
    ensures r.Some? ==> i <= r.value < |ps| && PostOf(ps, r.value, outcome).Veto?
    ensures r.Some? ==> forall k: nat :: i <= k < r.value ==> PostOf(ps, k, outcome).Accept?
    ensures r.None? ==> forall k: nat :: i <= k < |ps| ==> PostOf(ps, k, outcome).Accept?
    decreases |ps| - i
  {
    if i == |ps| then None
    else if PostOf(ps, i, outcome).Veto? then Some(i)
    else FirstVeto(ps, outcome, i + 1)
  }

  /** Every policy's context, in the order of the policies. */
  function PostContext(ps: seq<Policy>, outcome: SkillOutcome): seq<string> {
    if ps == [] then []
    else PostContext(ps[..|ps| - 1], outcome) + ps[|ps| - 1].post(outcome).extra
  }

  /** The context of a result is what every policy adds to it, in order. */
  lemma {:induction false} PostContextIs(ps: seq<Policy>, outcome: SkillOutcome)
    ensures PostContext(ps, outcome) == Flat(seq(|ps|, i requires 0 <= i < |ps| => ps[i].post(outcome).extra))
    decreases |ps|
  {
    var all := seq(|ps|, i requires 0 <= i < |ps| => ps[i].post(outcome).extra);
    if ps != [] {
      var n := |ps| - 1;
      var front := ps[..n];
      PostContextIs(front, outcome);
      assert all == seq(n, i requires 0 <= i < n => front[i].post(outcome).extra) + [ps[n].post(outcome).extra];
      FlatEnd(seq(n, i requires 0 <= i < n => front[i].post(outcome).extra), ps[n].post(outcome).extra);
    }
  }

  predicate FirstVetoIs(ps: seq<Policy>, outcome: SkillOutcome, i: nat)
    requires i < |ps|
  {
    PostOf(ps, i, outcome).Veto? && forall k: nat :: k < i ==> PostOf(ps, k, outcome).Accept?
  }

  predicate AllAccept(ps: seq<Policy>, outcome: SkillOutcome) {
    forall i: nat :: i < |ps| ==> PostOf(ps, i, outcome).Accept?
  }

  /** The first veto wins the summary for good; without one the last accept does.
      All context is kept, in order, either way. */
  method PostChain(ps: seq<Policy>, outcome: SkillOutcome)
    returns (summary: string, extra: seq<string>, blocked: bool)
    ensures blocked <==> FirstVeto(ps, outcome, 0).Some?
    ensures blocked ==> summary == PostOf(ps, FirstVeto(ps, outcome, 0).value, outcome).feedback
    ensures blocked <==> exists i: nat :: i < |ps| && PostOf(ps, i, outcome).Veto?
    ensures blocked ==>
              exists i: nat :: i < |ps| && FirstVetoIs(ps, outcome, i) && summary == PostOf(ps, i, outcome).feedback
    ensures !blocked ==> summary == if ps == [] then outcome.summary else PostOf(ps, |ps| - 1, outcome).summary
    ensures extra == PostContext(ps, outcome)
  {
    summary := outcome.summary;
    extra := [];
    blocked := false;
    ghost var first := FirstVeto(ps, outcome, 0);
    for i := 0 to |ps|
      invariant blocked <==> first.Some? && first.value < i
      invariant blocked ==> summary == PostOf(ps, first.value, outcome).feedback
      invariant !blocked ==> summary == if i == 0 then outcome.summary else PostOf(ps, i - 1, outcome).summary
      invariant !blocked ==> forall k: nat :: k < i ==> PostOf(ps, k, outcome).Accept?
      invariant extra == PostContext(ps[..i], outcome)
    {
      assert ps[..i + 1][..i] == ps[..i];
      var decision := ps[i].post(outcome);
      assert decision == PostOf(ps, i, outcome);
      match decision {
        case Accept(s, context) =>
          if !blocked { summary := s; }
          extra := extra + context;
        case Veto(feedback, context) =>
          if !blocked {
            summary := feedback;
            blocked := true;
          }
          extra := extra + context;
      }
    }
    assert ps[..|ps|] == ps;
  }

  /** The model-facing result of one call and what was done about it. */
  datatype RunReport = RunReport(
    outcome: SkillOutcome,
    notices: seq<string>,
    approval: Option<Approval>,
    bodyRan: bool,
    sunk: bool)

  // ------------------------------------------------ what becomes of a long result

  const SPILL_THRESHOLD: nat := 48 * 1024
  const SUMMARIZE_THRESHOLD: nat := 2000

  /** What is around the body: whether its result may be spilled, what writing it to
      disk gives (a digest and the pointer to the file, or a failure), the
      summariser if there is one, what the caller expects, and whether the turn is
      seen to be interrupted when it matters. */
  datatype Surroundings = Surroundings(
    spills: bool,
    write: string -> Option<(string, string)>,
    summarizer: Option<string -> Option<string>>,
    expectation: string,
    cancelledAtSpill: bool,
    cancelledAtSummary: bool,
    cancelledAtEnd: bool)

  /** The result after spilling, and the pointer to the file if there is one. */
  function Spilled(sur: Surroundings, body: SkillOutcome): (SkillOutcome, Option<string>) {
    if !sur.spills || !body.ok || sur.cancelledAtSpill || Utf8Len(body.summary) <= SPILL_THRESHOLD then (body, None)
    else match sur.write(body.summary)
      case Some((digest, pointer)) => (SkillOutcome(true, digest), Some(pointer))
      case None => (body, None)
  }

  /** The paraphrase, with what must outlive it put back. */
  function Focused(focused: string, pointer: Option<string>, readOn: Option<string>): string {
    var f := if pointer.Some? then focused + "\n" + pointer.value else focused;
    if readOn.Some? && !Contains(f, readOn.value) then f + "\n" + readOn.value else f
  }

  /** A long good result is paraphrased, where somebody can and the caller said what
      for. */
  predicate Paraphrases(sur: Surroundings, outcome: SkillOutcome) {
    && outcome.ok && !sur.cancelledAtSummary && !Blank(sur.expectation)
    && Utf8Len(outcome.summary) > SUMMARIZE_THRESHOLD
    && sur.summarizer.Some? && sur.summarizer.value(outcome.summary).Some?
  }

  function Summarised(sur: Surroundings, outcome: SkillOutcome, pointer: Option<string>): string {
    if Paraphrases(sur, outcome)
    then Focused(sur.summarizer.value(outcome.summary).value, pointer, ReadOnLine(Lines(outcome.summary)))
    else outcome.summary
  }

  /** However a result is paraphrased, the way to the rest survives: the pointer to
      the spill file, and the line that names the next read. */
  lemma {:induction false} TheWayOnSurvives(sur: Surroundings, outcome: SkillOutcome, pointer: Option<string>)
    requires Paraphrases(sur, outcome)
    ensures var summary := Summarised(sur, outcome, pointer);
            var line := ReadOnLine(Lines(outcome.summary));
            && (pointer.Some? ==> Contains(summary, pointer.value))
            && (line.Some? ==> Contains(summary, line.value))
  {
    var focused := sur.summarizer.value(outcome.summary).value;
    var line := ReadOnLine(Lines(outcome.summary));
    var f := if pointer.Some? then focused + "\n" + pointer.value else focused;
    if pointer.Some? { EndIsContained(focused + "\n", pointer.value); }
    if line.Some? && !Contains(f, line.value) {
      EndIsContained(f + "\n", line.value);
      if pointer.Some? {
        MoreContains(f, "\n" + line.value, pointer.value);
        assert f + ("\n" + line.value) == f + "\n" + line.value;
      }
    }
  }

  /** From the reader to the model: when a capped page is paraphrased, the call that
      reads on is still in what the model gets. */
  lemma {:induction false} CappedPageSurvives(
    sur: Surroundings, lines: seq<string>, start: Option<nat>, end: Option<nat>, path: string, p: Page)
    requires IsPage(Formatted(lines), RangeText(lines, start, end), From(start), To(end, |lines|), p)
    requires '\n' !in path && (p.Cut? || p.Head?)
    requires Paraphrases(sur,
             SkillOutcome(true, PageText(lines, path, RangeText(lines, start, end), To(end, |lines|), p)))
    ensures var to := To(end, |lines|);
            var page := PageText(lines, path, RangeText(lines, start, end), to, p);
            var read := Summarised(sur, SkillOutcome(true, page), None);
            && (LastShown(p) < to ==> Contains(read, Suggestion(path, LastShown(p) + 1)))
            && (p.Cut? ==> Contains(read, RangeSuggestion(path, p.last + 1, p.nextEnd)))
  {
    var to := To(end, |lines|);
    var page := PageText(lines, path, RangeText(lines, start, end), to, p);
    CappedPageNamesTheWay(lines, start, end, path, p);
    TheWayOnSurvives(sur, SkillOutcome(true, page), None);
    SuggestionSurvives(Summarised(sur, SkillOutcome(true, page), None), page, path, to, p);
  }

  lemma {:induction false} SuggestionSurvives(read: string, page: string, path: string, to: nat, p: Page)
    requires (p.Cut? || p.Head?) && NamesTheWay(page, path, to, p)
    requires Contains(read, ReadOnLine(Lines(page)).value)
    ensures LastShown(p) < to ==> Contains(read, Suggestion(path, LastShown(p) + 1))
    ensures p.Cut? ==> Contains(read, RangeSuggestion(path, p.last + 1, p.nextEnd))
  {
    var line := ReadOnLine(Lines(page)).value;
    if LastShown(p) < to { PartOfPart(read, line, Suggestion(path, LastShown(p) + 1)); }
    if p.Cut? { PartOfPart(read, line, RangeSuggestion(path, p.last + 1, p.nextEnd)); }
  }

  // ------------------------------------------------------------- the whole call

  /** The outcome the post chain is shown: the body's, spilled, or the denial's. */
  function Seen(ps: seq<Policy>, ask: Asking, sur: Surroundings, body: SkillOutcome): SkillOutcome {
    match Denial(ps, ask)
    case None => Spilled(sur, body).0
    case Some(reason) => SkillOutcome(false, reason)
  }

  /** What the post chain makes of it. */
  function Posted(ps: seq<Policy>, seen: SkillOutcome, ran: bool): SkillOutcome {
    match FirstVeto(ps, seen, 0)
    case Some(i) => SkillOutcome(false, PostOf(ps, i, seen).feedback)
    case None => if ran && ps != [] then seen.(summary := PostOf(ps, |ps| - 1, seen).summary) else seen
  }

  /** A result is spilled if and only if it may be, is good, is over 48 KB, the turn goes
      on and the disk takes it; then its digest stands in for it, and otherwise nothing
      changes. */
  lemma {:induction false} SpilledIff(sur: Surroundings, body: SkillOutcome)
    ensures var (outcome, pointer) := Spilled(sur, body);
            && (pointer.Some? <==>
                  && sur.spills && body.ok && !sur.cancelledAtSpill && Utf8Len(body.summary) > 49152
                  && sur.write(body.summary).Some?)
            && (pointer.Some? ==> (outcome.summary, pointer.value) == sur.write(body.summary).value)
            && outcome.ok == body.ok && (pointer.None? ==> outcome == body)
  {}

  /** The model reads a result verbatim unless it is good, over 2000 bytes, asked for
      with an expectation, in a turn that goes on, and a summariser answers; every
      rewrite is a chance to misquote it. */
  lemma {:induction false} VerbatimUnless(sur: Surroundings, outcome: SkillOutcome, pointer: Option<string>)
    requires !outcome.ok || sur.cancelledAtSummary || Blank(sur.expectation) || Utf8Len(outcome.summary) <= 2000
             || sur.summarizer.None? || sur.summarizer.value(outcome.summary).None?
    ensures Summarised(sur, outcome, pointer) == outcome.summary
  {}

  /** Otherwise it reads the summariser's answer, with what must outlive it behind. */
  lemma {:induction false} ParaphrasedElse(sur: Surroundings, outcome: SkillOutcome, pointer: Option<string>)
    requires outcome.ok && !sur.cancelledAtSummary && !Blank(sur.expectation) && Utf8Len(outcome.summary) > 2000
    requires sur.summarizer.Some? && sur.summarizer.value(outcome.summary).Some?
    ensures sur.summarizer.value(outcome.summary).value <= Summarised(sur, outcome, pointer)
    ensures pointer.None? && ReadOnLine(Lines(outcome.summary)).None? ==>
              Summarised(sur, outcome, pointer) == sur.summarizer.value(outcome.summary).value
  {}

  /** What the post chain makes of a result, by positions: the first veto turns it into
      a failure with its feedback, without one the last policy words it; a denial that
      nobody vetoes stays as it was worded. */
  lemma {:induction false} PostedIs(ps: seq<Policy>, seen: SkillOutcome, ran: bool)
    ensures forall i: nat :: i < |ps| && FirstVetoIs(ps, seen, i) ==>
              Posted(ps, seen, ran) == SkillOutcome(false, PostOf(ps, i, seen).feedback)
    ensures AllAccept(ps, seen) && ran && ps != [] ==>
              Posted(ps, seen, ran) == SkillOutcome(seen.ok, PostOf(ps, |ps| - 1, seen).summary)
    ensures AllAccept(ps, seen) && (!ran || ps == []) ==> Posted(ps, seen, ran) == seen
  {
    forall i: nat | i < |ps| && FirstVetoIs(ps, seen, i)
      ensures FirstVeto(ps, seen, 0) == Some(i)
    {
      var f := FirstVeto(ps, seen, 0);
      assert f.Some? ==> f.value == i;
    }
  }

  /** What the post chain is shown: the result, spilled, of a body that ran, and else a
      failure that gives the denial. */
  lemma {:induction false} SeenIs(ps: seq<Policy>, ask: Asking, sur: Surroundings, body: SkillOutcome)
    ensures Executes(ps, ask) ==> Seen(ps, ask, sur, body) == Spilled(sur, body).0
    ensures !Executes(ps, ask) ==> Denial(ps, ask).Some?
    ensures !Executes(ps, ask) ==> Seen(ps, ask, sur, body) == SkillOutcome(false, Denial(ps, ask).value)
  {}

  /** `run_report` past its depth and interrupt checks; `body` is what the skill
      would produce. */
  method RunGuarded(ps: seq<Policy>, ask: Asking, sur: Surroundings, body: SkillOutcome) returns (r: RunReport)
    ensures r.bodyRan <==> Executes(ps, ask)
    ensures r.approval.Some? <==> AskSurvives(ps)
    ensures var seen := Seen(ps, ask, sur, body);
            var posted := Posted(ps, seen, r.bodyRan);
            && r.notices == AllowContext(ps) + PostContext(ps, seen)
            && (r.outcome.ok <==> r.bodyRan && body.ok && AllAccept(ps, seen))
            && (r.sunk <==> r.bodyRan && !body.ok && !sur.cancelledAtEnd && AllAccept(ps, seen))
            && r.outcome.summary == if r.bodyRan then Summarised(sur, posted, Spilled(sur, body).1) else posted.summary
  {
    var denial, record, context, _ := PreDecide(ps, ask);
    var notices := context;
    if denial.Some? {
      var denied := SkillOutcome(false, denial.value);
      var summary, extra, blocked := PostChain(ps, denied);
      notices := notices + extra;
      return RunReport(SkillOutcome(false, if blocked then summary else denied.summary), notices, record, false, false);
    }
    var (outcome, spilled) := Spilled(sur, body);
    var summary, extra, blocked := PostChain(ps, outcome);
    notices := notices + extra;
    var veto := blocked;
    if blocked {
      outcome := SkillOutcome(false, summary);
    } else {
      outcome := outcome.(summary := summary);
    }
    if outcome.ok && !sur.cancelledAtSummary && !Blank(sur.expectation)
        && Utf8Len(outcome.summary) > SUMMARIZE_THRESHOLD {
      var readOn := ReadOnLine(Lines(outcome.summary));
      if sur.summarizer.Some? {
        var focused := sur.summarizer.value(outcome.summary);
        if focused.Some? {
          var f := focused.value;
          if spilled.Some? { f := f + "\n" + spilled.value; }
          if readOn.Some? && !Contains(f, readOn.value) { f := f + "\n" + readOn.value; }
          outcome := outcome.(summary := f);
        }
      }
    }
    r := RunReport(outcome, notices, record, true, !outcome.ok && !veto && !sur.cancelledAtEnd);
  }
}
