/** Where a history is split for compaction (crates/agents/src/compact.rs): a
    backward walk fills the tail's token budget, a second backward walk moves the
    split off any assistant/tool-result group. */
module Compaction {
  import opened Text

  datatype Role = System | User | AssistantRole | Tool

  /** A stored message: its approximate token count and whether it carries native
      tool calls. */
  datatype Message = Message(role: Role, tokens: nat, hasToolCalls: bool)

  const MIN_FOLD: nat := 4
  const MIN_TAIL: nat := 2
  const U32_MAX: nat := 0xFFFF_FFFF

  function MsgTokens(m: Message): nat { m.tokens + 4 }

  /** `u32::saturating_add` */
  function SaturatingAdd(a: nat, b: nat): nat {
    if a + b > U32_MAX then U32_MAX else a + b
  }

  /** The split may stand at `i`: the tail does not open on a tool result and the
      fold does not close on an assistant message whose calls are pending. */
  predicate Safe(ms: seq<Message>, i: nat)
    requires i <= |ms|
  {
    && !(i < |ms| && ms[i].role == Tool)
    && !(i > 0 && ms[i - 1].hasToolCalls)
  }

  /** What the messages from `i` on cost. */
  function TailCost(ms: seq<Message>, i: nat): nat
    requires i <= |ms|
    decreases |ms| - i
  {
    if i == |ms| then 0 else MsgTokens(ms[i]) + TailCost(ms, i + 1)
  }

  function Saturated(n: nat): nat { if n > U32_MAX then U32_MAX else n }

  /** The tail from `i` on may be kept: it is as short as a tail gets, or it fits
      the budget. */
  predicate Affordable(ms: seq<Message>, budget: nat, i: nat)
    requires i <= |ms|
  {
    i + MIN_TAIL >= |ms| || Saturated(TailCost(ms, i)) <= budget
  }

  /** `i` is where the budget walk stops: the longest affordable tail. */
  ghost predicate IsStop(ms: seq<Message>, budget: nat, i: nat)
    requires |ms| >= MIN_TAIL
  {
    && i <= |ms| - MIN_TAIL
    && Affordable(ms, budget, i)
    && forall k: nat :: k < i ==> !Affordable(ms, budget, k)
  }

  /** `r` is the split: the greatest safe index not above the stop, provided that
      enough messages fold. */
  ghost predicate IsSplit(ms: seq<Message>, budget: nat, r: Option<nat>) {
    if |ms| < MIN_FOLD + MIN_TAIL then r == None
    else exists stop: nat :: IsStop(ms, budget, stop) && IsSplitBelow(ms, stop, r)
  }

  ghost predicate IsSplitBelow(ms: seq<Message>, stop: nat, r: Option<nat>)
    requires stop <= |ms|
  {
    match r
    case Some(i) => MIN_FOLD <= i <= stop && Safe(ms, i) && forall k: nat :: i < k <= stop ==> !Safe(ms, k)
    case None => forall k: nat :: MIN_FOLD <= k <= stop ==> !Safe(ms, k)
  }

  lemma {:induction false} TailCostDecreases(ms: seq<Message>, i: nat, j: nat)
    requires i <= j <= |ms|
    ensures TailCost(ms, j) <= TailCost(ms, i)
    decreases j - i
  {
    if i < j { TailCostDecreases(ms, i + 1, j); }
  }

  /** `split_index`, with the tail budget already computed from the percentage. */
  method SplitIndex(ms: seq<Message>, tailBudget: nat) returns (r: Option<nat>)
    requires tailBudget <= U32_MAX
    ensures IsSplit(ms, tailBudget, r)
  {
    if |ms| < MIN_FOLD + MIN_TAIL { return None; }
    var maxSplit := |ms| - MIN_TAIL;
    var acc := 0;
    var split := |ms|;
    while split > 0
      invariant 0 <= split <= |ms|
      invariant acc == Saturated(TailCost(ms, split))
      invariant split <= maxSplit ==> Affordable(ms, tailBudget, split)
    {
      var cost := MsgTokens(ms[split - 1]);
      if SaturatingAdd(acc, cost) > tailBudget && split <= maxSplit { break; }
      acc := SaturatingAdd(acc, cost);
      split := split - 1;
    }
    if split > maxSplit { split := maxSplit; }
    ghost var stop := split;
    StopFound(ms, tailBudget, stop);

    while true
      invariant 0 <= split <= stop
      invariant forall k: nat :: split < k <= stop ==> !Safe(ms, k)
      decreases split
    {
      var opensOnTool := split < |ms| && ms[split].role == Tool;
      var closesOnPendingCalls := split > 0 && ms[split - 1].hasToolCalls;
      if !opensOnTool && !closesOnPendingCalls { break; }
      if split == 0 { break; }
      split := split - 1;
    }
    if split < MIN_FOLD { r := None; } else { r := Some(split); }
    assert IsSplitBelow(ms, stop, r);
  }

  /** One step past the walk's end is too much, so everything before is. */
  lemma {:induction false} StopFound(ms: seq<Message>, budget: nat, stop: nat)
    requires |ms| >= MIN_TAIL && stop <= |ms| - MIN_TAIL && Affordable(ms, budget, stop)
    requires stop > 0 ==> !Affordable(ms, budget, stop - 1)
    ensures IsStop(ms, budget, stop)
  {
    forall k: nat | k < stop
      ensures !Affordable(ms, budget, k)
    {
      TailCostDecreases(ms, k, stop - 1);
    }
  }

  // -------------------------------------------------------------- consequences

  /** The specification determines the split. */
  lemma {:induction false} SplitUnique(ms: seq<Message>, budget: nat, r: Option<nat>, r': Option<nat>)
    requires IsSplit(ms, budget, r) && IsSplit(ms, budget, r')
    ensures r == r'
  {}

  /** At least `MIN_FOLD` messages fold, at least `MIN_TAIL` stay, the split is
      safe, and what stays is either the shortest tail there is, a tail within the
      budget, or such a tail grown only to keep a group whole. */
  lemma {:induction false} SplitBounds(ms: seq<Message>, budget: nat, i: nat)
    requires IsSplit(ms, budget, Some(i))
    ensures MIN_FOLD <= i && i + MIN_TAIL <= |ms| && Safe(ms, i)
    ensures exists stop: nat :: i <= stop && IsStop(ms, budget, stop) && forall k: nat :: i < k <= stop ==> !Safe(ms, k)
  {}

  /** A larger tail budget never folds more. */
  lemma {:induction false} LargerBudgetFoldsLess(ms: seq<Message>, b: nat, b': nat, r: Option<nat>, r': Option<nat>)
    requires b <= b' && IsSplit(ms, b, r) && IsSplit(ms, b', r')
    ensures r'.Some? ==> r.Some? && r'.value <= r.value
  {
    if |ms| >= MIN_FOLD + MIN_TAIL {
      var s: nat :| IsStop(ms, b, s) && IsSplitBelow(ms, s, r);
      var s': nat :| IsStop(ms, b', s') && IsSplitBelow(ms, s', r');
      assert Affordable(ms, b', s);
      assert s' <= s;
    }
  }

  /** Every tool result follows its assistant message or another result of the
      same group, and no assistant message is left without its results. */
  ghost predicate WellFormed(ms: seq<Message>) {
    && (forall i :: 0 <= i < |ms| && ms[i].role == Tool ==> i > 0 && (ms[i - 1].role == Tool || ms[i - 1].hasToolCalls))
    && (forall i :: 0 <= i < |ms| && ms[i].hasToolCalls ==> i + 1 < |ms| && ms[i + 1].role == Tool)
  }

  /** `r` is a result of the call at `a`: only results stand between them. */
  ghost predicate InGroup(ms: seq<Message>, a: nat, r: nat)
    requires r < |ms|
  {
    a < r && ms[a].hasToolCalls && forall k :: a < k <= r ==> ms[k].role == Tool
  }

  /** In a well-formed history a tool result belongs to some call. */
  lemma {:induction false} ResultHasCall(ms: seq<Message>, r: nat)
    requires WellFormed(ms) && r < |ms| && ms[r].role == Tool
    ensures exists a: nat :: a < r && InGroup(ms, a, r)
  {
    if ms[r - 1].hasToolCalls {
      assert InGroup(ms, r - 1, r);
    } else {
      ResultHasCall(ms, r - 1);
      var a: nat :| a < r - 1 && InGroup(ms, a, r - 1);
      assert InGroup(ms, a, r);
    }
  }

  /** No call is folded while one of its results stays, and each half of a
      well-formed history is well-formed on its own. */
  lemma {:induction false} NoGroupStraddles(ms: seq<Message>, budget: nat, i: nat)
    requires WellFormed(ms) && IsSplit(ms, budget, Some(i))
    ensures forall a: nat, r: nat :: r < |ms| && a < i <= r ==> !InGroup(ms, a, r)
    ensures WellFormed(ms[..i]) && WellFormed(ms[i..])
  {}

  /** Safety is also necessary: at an unsafe index of a well-formed history some
      group is torn apart. */
  lemma {:induction false} UnsafeTears(ms: seq<Message>, i: nat)
    requires WellFormed(ms) && 0 < i < |ms| && !Safe(ms, i)
    ensures exists a: nat, r: nat :: a < i <= r < |ms| && InGroup(ms, a, r)
  {
    assert ms[i - 1].hasToolCalls ==> ms[i].role == Tool;
    ResultHasCall(ms, i);
    var a: nat :| a < i && InGroup(ms, a, i);
  }

  // ------------------------------------------------------------------- in numbers

  /** The tokens of all messages from `i` on. */
  function TokensFrom(ms: seq<Message>, i: nat): nat
    requires i <= |ms|
    decreases |ms| - i
  {
    if i == |ms| then 0 else ms[i].tokens + TokensFrom(ms, i + 1)
  }

  /** A message costs its tokens and four more. */
  lemma {:induction false} TailCostIs(ms: seq<Message>, i: nat)
    requires i <= |ms|
    ensures TailCost(ms, i) == TokensFrom(ms, i) + 4 * (|ms| - i)
    decreases |ms| - i
  {
    if i < |ms| { TailCostIs(ms, i + 1); }
  }

  /** What a split leaves, in numbers: at least four messages fold and at least two
      stay; a tail of more than two is within the budget, or was only grown from such a
      one to keep a group whole; and one message more would not have been affordable. */
  lemma {:induction false} SplitInNumbers(ms: seq<Message>, budget: nat, i: nat)
    requires IsSplit(ms, budget, Some(i)) && budget < U32_MAX
    ensures 4 <= i && i + 2 <= |ms|
    ensures exists stop: nat ::
              && i <= stop <= |ms| - 2 && (forall k: nat :: i < k <= stop ==> !Safe(ms, k))
              && (stop < |ms| - 2 ==> TokensFrom(ms, stop) + 4 * (|ms| - stop) <= budget)
              && (stop > 0 ==> TokensFrom(ms, stop - 1) + 4 * (|ms| - stop + 1) > budget)
  {
    var stop: nat :| IsStop(ms, budget, stop) && IsSplitBelow(ms, stop, Some(i));
    TailCostIs(ms, stop);
    if stop > 0 {
      TailCostIs(ms, stop - 1);
      assert !Affordable(ms, budget, stop - 1);
    }
  }

  /** A history of fewer than six messages is never split. */
  lemma {:induction false} ShortIsKept(ms: seq<Message>, budget: nat, r: Option<nat>)
    requires |ms| < 6 && IsSplit(ms, budget, r)
    ensures r == None
  {}
}
