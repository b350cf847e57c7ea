/** Nested tool calls and the start/finish events they emit
    (crates/agents/src/subagent.rs).

    A call is the tree of what its body dispatches, run one after the other on a
    shared id counter.  A body that times out or is interrupted is dropped at some
    await point: what it emitted by then is a prefix of the trace it would have
    had, and it emits nothing more. */
module CallTree {
  import opened Text

  datatype Event =
    | Started(id: nat, parent: Option<nat>, depth: nat)
    | Finished(id: nat)

  /** One dispatched call. `interrupted`: the turn was cancelled before it began.
      `admitted`: the pre-stage let the body run.  `cut`: the body was abandoned
      after that many of its events. */
  datatype Call = Call(interrupted: bool, admitted: bool, cut: Option<nat>, body: Calls)

  /** The calls of one body, in order. */
  datatype Calls = Done | Then(first: Call, rest: Calls)

  /** A sub-agent: the depth and parent its calls carry. */
  datatype Agent = Agent(depth: nat, parent: Option<nat>, maxDepth: nat)

  const U8_MAX: nat := 255

  /** The agent a body dispatches its own calls through. */
  function Child(agent: Agent, id: nat): Agent {
    Agent(if agent.depth < U8_MAX then agent.depth + 1 else U8_MAX, Some(id), agent.maxDepth)
  }

  function Starts(events: seq<Event>): nat {
    if events == [] then 0
    else Starts(events[..|events| - 1]) + if events[|events| - 1].Started? then 1 else 0
  }

  /** What is left of a body's trace when it is abandoned. */
  function Kept(cut: Option<nat>, trace: seq<Event>): seq<Event> {
    if cut.Some? && cut.value < |trace| then trace[..cut.value] else trace
  }

  /** What the body of a call emits, of itself. */
  function BodyTrace(c: Call, agent: Agent, id: nat): seq<Event>
    decreases c, 1
  {
    if c.admitted then Kept(c.cut, Traces(c.body, Child(agent, id), id + 1)) else []
  }

  /** The events of one call; `next` is the id counter when it is dispatched. */
  function Trace(c: Call, agent: Agent, next: nat): seq<Event>
    decreases c
  {
    if agent.depth >= agent.maxDepth || c.interrupted then []
    else
      [Started(next, agent.parent, agent.depth)] + BodyTrace(c, agent, next) + [Finished(next)]
  }

  function Traces(cs: Calls, agent: Agent, next: nat): seq<Event>
    decreases cs
  {
    match cs
    case Done => []
    case Then(c, rest) =>
      var first := Trace(c, agent, next);
      first + Traces(rest, agent, next + Starts(first))
  }

  // ------------------------------------------------------------------- the run itself

  /** What is left of `fuel` events after `n` of them. */
  function Spend(fuel: Option<nat>, n: nat): Option<nat>
    requires fuel.Some? ==> n <= fuel.value
  {
    match fuel case Some(k) => Some(k - n) case None => None
  }

  function Sooner(a: Option<nat>, b: Option<nat>): Option<nat> {
    if a.None? then b else if b.None? then a else if a.value < b.value then a else b
  }

  /** From `events` and `next` on, as much of `trace` was emitted as `fuel` allows,
      and `left` of the fuel remains. */
  ghost predicate Ran(events: seq<Event>, next: nat, fuel: Option<nat>, trace: seq<Event>,
                      events': seq<Event>, next': nat, left: Option<nat>) {
    var out := Kept(fuel, trace);
    && events' == events + out && next' == next + Starts(out)
    && (fuel.Some? ==> |out| <= fuel.value) && left == Spend(fuel, |out|)
  }

  lemma {:induction false} KeptConcat(fuel: Option<nat>, s: seq<Event>, t: seq<Event>)
    ensures fuel.Some? ==> |Kept(fuel, s)| <= fuel.value
    ensures Kept(fuel, s + t) == Kept(fuel, s) + Kept(Spend(fuel, |Kept(fuel, s)|), t)
  {}

  lemma {:induction false} RanConcat(
    e0: seq<Event>, n0: nat, fuel: Option<nat>, s: seq<Event>, e1: seq<Event>, n1: nat, left: Option<nat>,
    t: seq<Event>, e2: seq<Event>, n2: nat, left': Option<nat>)
    requires Ran(e0, n0, fuel, s, e1, n1, left) && Ran(e1, n1, left, t, e2, n2, left')
    ensures Ran(e0, n0, fuel, s + t, e2, n2, left')
  {
    KeptConcat(fuel, s, t);
    StartsConcat(Kept(fuel, s), Kept(left, t));
  }

  /** Either all of it was emitted, or the fuel is spent and any trace will do for
      the nothing that follows. */
  lemma {:induction false} RanOut(
    e0: seq<Event>, n0: nat, fuel: Option<nat>, s: seq<Event>, e1: seq<Event>, n1: nat, left: Option<nat>)
    requires Ran(e0, n0, fuel, s, e1, n1, left)
    ensures n1 == n0 + Starts(s) || left == Some(0)
  {}

  lemma {:induction false} RanDead(e0: seq<Event>, n0: nat, s: seq<Event>, e1: seq<Event>, n1: nat, left: Option<nat>,
      t: seq<Event>)
    requires Ran(e0, n0, Some(0), s, e1, n1, left)
    ensures Ran(e0, n0, Some(0), t, e1, n1, left)
  {}

  /** A body abandoned on its own account inside one that may be abandoned: it
      stops at whichever comes first. */
  lemma {:induction false} RanCut(
    e0: seq<Event>, n0: nat, fuel: Option<nat>, cut: Option<nat>, trace: seq<Event>, e1: seq<Event>, n1: nat,
        left: Option<nat>)
    requires Ran(e0, n0, Sooner(fuel, cut), trace, e1, n1, left)
    ensures |e0| <= |e1| && (fuel.Some? ==> |e1| - |e0| <= fuel.value)
    ensures Ran(e0, n0, fuel, Kept(cut, trace), e1, n1, Spend(fuel, |e1| - |e0|))
  {
    assert Kept(fuel, Kept(cut, trace)) == Kept(Sooner(fuel, cut), trace);
  }

  /** The counter and the event stream that all calls of a run share. */
  class Sink {
    var events: seq<Event>
    var nextId: nat

    constructor (first: nat)
      ensures events == [] && nextId == first
    {
      events, nextId := [], first;
    }

    /** A fresh id and its start event, between which nothing can be dropped. */
    method Start(agent: Agent, fuel: Option<nat>) returns (id: nat, left: Option<nat>)
      requires fuel != Some(0)
      modifies this
      ensures id == old(nextId) && nextId == id + 1
      ensures Ran(old(events), old(nextId), fuel, [Started(id, agent.parent, agent.depth)], events, nextId, left)
    {
      id := nextId;
      nextId := nextId + 1;
      var start := Started(id, agent.parent, agent.depth);
      events := events + [start];
      left := Spend(fuel, 1);
      assert Kept(fuel, [start]) == [start];
    }

    method Finish(id: nat, fuel: Option<nat>) returns (left: Option<nat>)
      modifies this
      ensures Ran(old(events), old(nextId), fuel, [Finished(id)], events, nextId, left)
    {
      left := fuel;
      if fuel != Some(0) {
        events := events + [Finished(id)];
        left := Spend(fuel, 1);
        assert Kept(fuel, [Finished(id)]) == [Finished(id)];
      }
    }
  }

  /** `run_report`, as far as its events go.  `fuel` is how many more events come
      before one of the surrounding bodies is dropped. */
  method RunReport(c: Call, agent: Agent, sink: Sink, fuel: Option<nat>) returns (left: Option<nat>)
    modifies sink
    ensures Ran(old(sink.events), old(sink.nextId), fuel, Trace(c, agent, old(sink.nextId)),
                sink.events, sink.nextId, left)
    decreases c, 1
  {
    if agent.depth >= agent.maxDepth || c.interrupted || fuel == Some(0) { return fuel; }
    ghost var e0, n0 := sink.events, sink.nextId;
    var id;
    id, left := sink.Start(agent, fuel);
    ghost var start, body := [Started(id, agent.parent, agent.depth)], BodyTrace(c, agent, id);
    ghost var e1, n1, f1 := sink.events, sink.nextId, left;
    left := RunAdmitted(c, agent, id, sink, left);
    ghost var e2, n2, f2 := sink.events, sink.nextId, left;
    left := sink.Finish(id, left);
    RanConcat(e0, n0, fuel, start, e1, n1, f1, body, e2, n2, f2);
    RanConcat(e0, n0, fuel, start + body, e2, n2, f2, [Finished(id)], sink.events, sink.nextId, left);
  }

  /** The body, if the pre-stage lets it run. */
  method RunAdmitted(c: Call, agent: Agent, id: nat, sink: Sink, fuel: Option<nat>) returns (left: Option<nat>)
    requires sink.nextId == id + 1
    modifies sink
    ensures Ran(old(sink.events), old(sink.nextId), fuel, BodyTrace(c, agent, id), sink.events, sink.nextId, left)
    decreases c, 0
  {
    if !c.admitted { return fuel; }
    ghost var e0, n0 := sink.events, sink.nextId;
    var before := |sink.events|;
    var inner := RunBody(c.body, Child(agent, id), sink, Sooner(fuel, c.cut));
    RanCut(e0, n0, fuel, c.cut, Traces(c.body, Child(agent, id), id + 1), sink.events, sink.nextId, inner);
    left := Spend(fuel, |sink.events| - before);
  }

  /** A body that dispatches its calls one after the other. */
  method RunBody(cs: Calls, agent: Agent, sink: Sink, fuel: Option<nat>) returns (left: Option<nat>)
    modifies sink
    ensures Ran(old(sink.events), old(sink.nextId), fuel, Traces(cs, agent, old(sink.nextId)), sink.events,
            sink.nextId, left)
    decreases cs, 0
  {
    match cs
    case Done => left := fuel;
    case Then(c, rest) =>
      ghost var e0, n0 := sink.events, sink.nextId;
      ghost var first := Trace(c, agent, n0);
      ghost var others := Traces(rest, agent, n0 + Starts(first));
      left := RunReport(c, agent, sink, fuel);
      ghost var e1, n1, f1 := sink.events, sink.nextId, left;
      RanOut(e0, n0, fuel, first, e1, n1, left);
      left := RunBody(rest, agent, sink, left);
      if f1 == Some(0) { RanDead(e1, n1, Traces(rest, agent, n1), sink.events, sink.nextId, left, others); }
      RanConcat(e0, n0, fuel, first, e1, n1, f1, others, sink.events, sink.nextId, left);
  }

  // ----------------------------------------------------------- an independent judge

  /** The open calls, outermost first, with the depth of the run's root agent
      below them.  A finish closes its call and every call still open inside it:
      those belong to a body that was dropped. */
  function IndexOf(stack: seq<nat>, id: nat): (r: Option<nat>)
    ensures r.Some? ==> r.value < |stack| && stack[r.value] == id
    ensures r.Some? ==> forall k :: r.value < k < |stack| ==> stack[k] != id
    ensures r.None? ==> id !in stack
  {
    if stack == [] then None
    else if stack[|stack| - 1] == id then Some(|stack| - 1)
    else IndexOf(stack[..|stack| - 1], id)
  }

  function Innermost(stack: seq<nat>, root: Option<nat>): Option<nat> {
    if stack == [] then root else Some(stack[|stack| - 1])
  }

  /** Reads a trace event by event and refuses it if an event does not fit: a
      start must carry the next fresh id, the innermost open call as its parent
      and the true nesting depth, below the limit; a finish must close an open
      call at or above `floor`. */
  function Judge(events: seq<Event>, stack: seq<nat>, next: nat, agent: Agent, floor: nat): Option<seq<nat>>
    decreases |events|
  {
    if events == [] then Some(stack)
    else match events[0]
      case Started(id, parent, depth) =>
        if id == next && parent == Innermost(stack, agent.parent) && depth == agent.depth + |stack|
            && depth < agent.maxDepth
        then Judge(events[1..], stack + [id], next + 1, agent, floor)
        else None
      case Finished(id) =>
        var i := IndexOf(stack, id);
        if i.Some? && floor <= i.value then Judge(events[1..], stack[..i.value], next, agent, floor)
        else None
  }

  /** A trace that the judge reads to its end may be followed by more. */
  lemma {:induction false} JudgeConcat(s: seq<Event>, t: seq<Event>, stack: seq<nat>, next: nat, agent: Agent,
      floor: nat)
    requires Judge(s, stack, next, agent, floor).Some?
    ensures Judge(s + t, stack, next, agent, floor)
            == Judge(t, Judge(s, stack, next, agent, floor).value, next + Starts(s), agent, floor)
    decreases |s|
  {
    if s == [] {
      assert s + t == t;
    } else {
      var e := s[0];
      assert (s + t)[1..] == s[1..] + t;
      StartsFirst(s);
      match e
      case Started(id, _, _) => JudgeConcat(s[1..], t, stack + [id], next + 1, agent, floor);
      case Finished(id) => JudgeConcat(s[1..], t, stack[..IndexOf(stack, id).value], next, agent, floor);
    }
  }

  lemma {:induction false} StartsFirst(s: seq<Event>)
    requires s != []
    ensures Starts(s) == Starts(s[1..]) + if s[0].Started? then 1 else 0
    decreases |s|
  {
    if |s| > 1 {
      StartsFirst(s[..|s| - 1]);
      assert s[..|s| - 1][1..] == s[1..][..|s| - 2];
    }
  }

  lemma {:induction false} StartsConcat(s: seq<Event>, t: seq<Event>)
    ensures Starts(s + t) == Starts(s) + Starts(t)
    decreases |t|
  {
    if t == [] {
      assert s + t == s;
    } else {
      assert (s + t)[..|s + t| - 1] == s + t[..|t| - 1];
      StartsConcat(s, t[..|t| - 1]);
    }
  }

  /** Cut a good trace anywhere: what is left is good, and nothing below the floor
      was closed. */
  lemma {:induction false} JudgePrefix(s: seq<Event>, n: nat, stack: seq<nat>, next: nat, agent: Agent, floor: nat)
    requires n <= |s| && floor <= |stack| && Judge(s, stack, next, agent, floor).Some?
    ensures var r := Judge(s[..n], stack, next, agent, floor);
            r.Some? && floor <= |r.value| && r.value[..floor] == stack[..floor]
    decreases |s|
  {
    if n > 0 {
      assert s[..n][1..] == s[1..][..n - 1];
      match s[0]
      case Started(id, _, _) => JudgePrefix(s[1..], n - 1, stack + [id], next + 1, agent, floor);
      case Finished(id) => JudgePrefix(s[1..], n - 1, stack[..IndexOf(stack, id).value], next, agent, floor);
    }
  }

  /** A trace judged with a high floor is good with any lower one. */
  lemma {:induction false} JudgeLower(s: seq<Event>, stack: seq<nat>, next: nat, agent: Agent, floor: nat, low: nat)
    requires low <= floor && Judge(s, stack, next, agent, floor).Some?
    ensures Judge(s, stack, next, agent, low) == Judge(s, stack, next, agent, floor)
    decreases |s|
  {
    if s != [] {
      match s[0]
      case Started(id, _, _) => JudgeLower(s[1..], stack + [id], next + 1, agent, floor, low);
      case Finished(id) => JudgeLower(s[1..], stack[..IndexOf(stack, id).value], next, agent, floor, low);
    }
  }

  // ------------------------------------------------------------------ main result

  /** `agent` is what `root` becomes inside the open calls of `stack`. */
  ghost predicate Serves(agent: Agent, root: Agent, stack: seq<nat>) {
    && agent.maxDepth == root.maxDepth
    && agent.depth == root.depth + |stack|
    && agent.parent == Innermost(stack, root.parent)
  }

  /** Ids on the stack are older than the counter. */
  ghost predicate Older(stack: seq<nat>, next: nat) {
    forall k :: 0 <= k < |stack| ==> stack[k] < next
  }

  lemma {:induction false} TraceIsGood(c: Call, agent: Agent, next: nat, root: Agent, stack: seq<nat>)
    requires root.maxDepth <= U8_MAX && Serves(agent, root, stack) && Older(stack, next)
    ensures Judge(Trace(c, agent, next), stack, next, root, |stack|) == Some(stack)
    decreases c
  {
    if agent.depth < agent.maxDepth && !c.interrupted {
      var child := Child(agent, next);
      var inner := stack + [next];
      var full := Traces(c.body, child, next + 1);
      TracesAreGood(c.body, child, next + 1, root, inner);
      var body := if c.admitted then Kept(c.cut, full) else [];
      var n := |body|;
      assert body == full[..n];
      JudgePrefix(full, n, inner, next + 1, root, |inner|);
      CallIsGood(body, agent, next, root, stack);
    }
  }

  /** An id below the counter does not come back above the floor. */
  lemma {:induction false} JudgeFresh(s: seq<Event>, stack: seq<nat>, next: nat, agent: Agent, floor: nat, id: nat)
    requires id < next && Judge(s, stack, next, agent, floor).Some?
    requires forall k :: floor <= k < |stack| ==> stack[k] != id
    ensures var r := Judge(s, stack, next, agent, floor).value; forall k :: floor <= k < |r| ==> r[k] != id
    decreases |s|
  {
    if s != [] {
      match s[0]
      case Started(x, _, _) => JudgeFresh(s[1..], stack + [x], next + 1, agent, floor, id);
      case Finished(x) => JudgeFresh(s[1..], stack[..IndexOf(stack, x).value], next, agent, floor, id);
    }
  }

  /** A start, any good stretch inside it, and its finish. */
  lemma {:induction false} CallIsGood(body: seq<Event>, agent: Agent, next: nat, root: Agent, stack: seq<nat>)
    requires Serves(agent, root, stack) && agent.depth < agent.maxDepth
    requires var r := Judge(body, stack + [next], next + 1, root, |stack| + 1);
             r.Some? && |stack| < |r.value| && r.value[..|stack| + 1] == stack + [next]
    ensures Judge([Started(next, agent.parent, agent.depth)] + body + [Finished(next)], stack, next, root, |stack|)
            == Some(stack)
  {
    var inner, floor := stack + [next], |stack| + 1;
    var r := Judge(body, inner, next + 1, root, floor).value;
    JudgeFresh(body, inner, next + 1, root, floor, next);
    assert r[|stack|] == r[..floor][|stack|] == next;
    assert IndexOf(r, next) == Some(|stack|);
    assert r[..|stack|] == r[..floor][..|stack|] == stack;
    JudgeLower(body, inner, next + 1, root, floor, |stack|);
    var end := [Finished(next)];
    JudgeConcat(body, end, inner, next + 1, root, |stack|);
    assert end[1..] == [];
    var whole := [Started(next, agent.parent, agent.depth)] + body + end;
    assert whole[1..] == body + end;
  }

  lemma {:induction false} TracesAreGood(cs: Calls, agent: Agent, next: nat, root: Agent, stack: seq<nat>)
    requires root.maxDepth <= U8_MAX && Serves(agent, root, stack) && Older(stack, next)
    ensures Judge(Traces(cs, agent, next), stack, next, root, |stack|) == Some(stack)
    decreases cs
  {
    match cs
    case Done =>
    case Then(c, rest) =>
      var first := Trace(c, agent, next);
      TraceIsGood(c, agent, next, root, stack);
      TracesAreGood(rest, agent, next + Starts(first), root, stack);
      JudgeConcat(first, Traces(rest, agent, next + Starts(first)), stack, next, root, |stack|);
  }

  /** Every run of nested calls, whatever is denied, interrupted or abandoned in
      it, leaves a trace the judge accepts: fresh consecutive ids, true parents and
      depths, nothing started at or beyond the depth limit, every finish closing an
      open call, and at the end no top-level call left open. */
  lemma {:induction false} EveryTraceIsGood(cs: Calls, root: Agent, next: nat)
    requires root.maxDepth <= U8_MAX
    ensures Judge(Traces(cs, root, next), [], next, root, 0) == Some([])
  {
    TracesAreGood(cs, root, next, root, []);
  }

  /** A whole turn on a sink of its own emits a trace the judge accepts. */
  method RunTurn(cs: Calls, root: Agent, first: nat) returns (events: seq<Event>, nextId: nat)
    requires root.maxDepth <= U8_MAX
    ensures Judge(events, [], first, root, 0) == Some([]) && nextId == first + Starts(events)
    ensures forall x :: x in OutsideAll(cs, root, first) ==> Finished(x) in events
  {
    var sink := new Sink(first);
    var _ := RunBody(cs, root, sink, None);
    events, nextId := sink.events, sink.nextId;
    EveryTraceIsGood(cs, root, first);
    assert events == Traces(cs, root, first);
    forall x | x in OutsideAll(cs, root, first)
      ensures Finished(x) in events
    {
      OutsideAllIsFinished(cs, root, first, x);
    }
  }

  // --------------------------------------------------------------- read by position

  /** In an accepted trace the starts count up from the counter. */
  lemma {:induction false} IdsCountUp(s: seq<Event>, stack: seq<nat>, next: nat, agent: Agent, floor: nat, j: nat)
    requires Judge(s, stack, next, agent, floor).Some? && j < |s| && s[j].Started?
    ensures s[j].id == next + Starts(s[..j]) && s[j].depth < agent.maxDepth
    decreases |s|
  {
    if j > 0 {
      assert s[..j][1..] == s[1..][..j - 1];
      StartsFirst(s[..j]);
      match s[0]
      case Started(x, _, _) => IdsCountUp(s[1..], stack + [x], next + 1, agent, floor, j - 1);
      case Finished(x) => IdsCountUp(s[1..], stack[..IndexOf(stack, x).value], next, agent, floor, j - 1);
    } else {
      assert s[..j] == [];
    }
  }

  ghost predicate StartedBefore(s: seq<Event>, j: nat, x: nat)
    requires j <= |s|
  {
    exists i :: 0 <= i < j && s[i].Started? && s[i].id == x
  }

  ghost predicate Distinct(stack: seq<nat>) {
    forall a, b :: 0 <= a < b < |stack| ==> stack[a] != stack[b]
  }

  /** In an accepted trace every finish comes after the start of its id, or
      closes a call that was open before. */
  lemma {:induction false} FinishClosesStart(s: seq<Event>, stack: seq<nat>, next: nat, agent: Agent, floor: nat,
      j: nat)
    requires Judge(s, stack, next, agent, floor).Some? && j < |s| && s[j].Finished?
    ensures s[j].id in stack || StartedBefore(s, j, s[j].id)
    decreases |s|
  {
    if j > 0 {
      var t, x := s[1..], s[j].id;
      Shifted(s, j, x);
      match s[0]
      case Started(y, _, _) => FinishClosesStart(t, stack + [y], next + 1, agent, floor, j - 1);
      case Finished(y) => FinishClosesStart(t, stack[..IndexOf(stack, y).value], next, agent, floor, j - 1);
    }
  }

  /** An old call that is no longer open is never finished again. */
  lemma {:induction false} GoneStaysGone(s: seq<Event>, stack: seq<nat>, next: nat, agent: Agent, floor: nat, x: nat,
      j: nat)
    requires Judge(s, stack, next, agent, floor).Some? && j < |s| && x < next && x !in stack
    ensures s[j] != Finished(x)
    decreases |s|
  {
    if j > 0 {
      match s[0]
      case Started(y, _, _) => GoneStaysGone(s[1..], stack + [y], next + 1, agent, floor, x, j - 1);
      case Finished(y) => GoneStaysGone(s[1..], stack[..IndexOf(stack, y).value], next, agent, floor, x, j - 1);
    }
  }

  lemma {:induction false} FinishedOnce(s: seq<Event>, stack: seq<nat>, next: nat, agent: Agent, floor: nat, i: nat,
      j: nat)
    requires Judge(s, stack, next, agent, floor).Some? && i < j < |s| && s[i].Finished?
    requires Older(stack, next) && Distinct(stack)
    ensures s[j] != s[i]
    decreases |s|
  {
    match s[0]
    case Started(y, _, _) => FinishedOnce(s[1..], stack + [y], next + 1, agent, floor, i - 1, j - 1);
    case Finished(y) =>
      var rest := stack[..IndexOf(stack, y).value];
      if i == 0 {
        GoneStaysGone(s[1..], rest, next, agent, floor, y, j - 1);
      } else {
        FinishedOnce(s[1..], rest, next, agent, floor, i - 1, j - 1);
      }
  }

  lemma {:induction false} Shifted(s: seq<Event>, j: nat, x: nat)
    requires 0 < j <= |s|
    ensures StartedBefore(s[1..], j - 1, x) ==> StartedBefore(s, j, x)
    ensures s[0].Started? && s[0].id == x ==> StartedBefore(s, j, x)
  {}

  /** The ids of the calls that no abandoned body contains. */
  function Outside(c: Call, agent: Agent, next: nat): set<nat>
    decreases c
  {
    if agent.depth >= agent.maxDepth || c.interrupted then {}
    else
      var full := Traces(c.body, Child(agent, next), next + 1);
      if c.admitted && Kept(c.cut, full) == full then {next} + OutsideAll(c.body, Child(agent, next), next + 1)
          else {next}
  }

  function OutsideAll(cs: Calls, agent: Agent, next: nat): set<nat>
    decreases cs
  {
    match cs
    case Done => {}
    case Then(c, rest) => Outside(c, agent, next) + OutsideAll(rest, agent, next + Starts(Trace(c, agent, next)))
  }

  lemma {:induction false} OutsideIsFinished(c: Call, agent: Agent, next: nat, x: nat)
    requires x in Outside(c, agent, next)
    ensures Finished(x) in Trace(c, agent, next)
    decreases c
  {
    if x != next { OutsideAllIsFinished(c.body, Child(agent, next), next + 1, x); }
  }

  lemma {:induction false} OutsideAllIsFinished(cs: Calls, agent: Agent, next: nat, x: nat)
    requires x in OutsideAll(cs, agent, next)
    ensures Finished(x) in Traces(cs, agent, next)
    decreases cs
  {
    var trace := Trace(cs.first, agent, next);
    var after := next + Starts(trace);
    assert Traces(cs, agent, next) == trace + Traces(cs.rest, agent, after);
    if x in Outside(cs.first, agent, next) {
      OutsideIsFinished(cs.first, agent, next, x);
    } else {
      OutsideAllIsFinished(cs.rest, agent, after, x);
    }
  }

  /** Every call outside an abandoned body is closed exactly once, after it was
      started; a call inside one is closed at most once. */
  lemma {:induction false} ClosedExactlyOnce(cs: Calls, root: Agent, next: nat, x: nat)
    requires root.maxDepth <= U8_MAX
    ensures var s := Traces(cs, root, next);
            && (x in OutsideAll(cs, root, next) ==> Finished(x) in s)
            && (forall j :: 0 <= j < |s| && s[j] == Finished(x) ==> StartedBefore(s, j, x))
            && (forall i, j :: 0 <= i < j < |s| && s[i] == Finished(x) ==> s[j] != Finished(x))
  {
    var s := Traces(cs, root, next);
    EveryTraceIsGood(cs, root, next);
    if x in OutsideAll(cs, root, next) { OutsideAllIsFinished(cs, root, next, x); }
    forall j | 0 <= j < |s| && s[j] == Finished(x)
      ensures StartedBefore(s, j, x)
    {
      FinishClosesStart(s, [], next, root, 0, j);
    }
    forall i, j | 0 <= i < j < |s| && s[i] == Finished(x)
      ensures s[j] != Finished(x)
    {
      FinishedOnce(s, [], next, root, 0, i, j);
    }
  }

  // --------------------------------------------------------- what a call dispatches

  /** What each kind of call emits: nothing at all at the depth limit or in an
      interrupted turn; its start and its finish alone if it is not let run; everything
      of its body between them if it is, under its own id and one level down; and the
      first part of that if the body is abandoned. */
  lemma {:induction false} CallEmits(c: Call, agent: Agent, next: nat)
    requires agent.maxDepth <= 255
    ensures var start, finish := Started(next, agent.parent, agent.depth), Finished(next);
            var trace := Trace(c, agent, next);
            && (agent.depth >= agent.maxDepth || c.interrupted ==> trace == [])
            && (agent.depth < agent.maxDepth && !c.interrupted && !c.admitted ==> trace == [start, finish])
            && (agent.depth < agent.maxDepth && !c.interrupted && c.admitted ==>
                  var body := Traces(c.body, Agent(agent.depth + 1, Some(next), agent.maxDepth), next + 1);
                  match c.cut
                  case None => trace == [start] + body + [finish]
                  case Some(k) => trace == [start] + (if k < |body| then body[..k] else body) + [finish])
  {
    if agent.depth < agent.maxDepth && !c.interrupted {
      assert Child(agent, next) == Agent(agent.depth + 1, Some(next), agent.maxDepth);
    }
  }

  /** Calls that nothing keeps from running to their end. */
  predicate Undisturbed(cs: Calls)
    decreases cs
  {
    cs.Then? ==>
      && !cs.first.interrupted && cs.first.admitted && cs.first.cut.None?
      && Undisturbed(cs.first.body) && Undisturbed(cs.rest)
  }

  function Size(cs: Calls): nat
    decreases cs
  {
    match cs case Done => 0 case Then(c, rest) => 1 + Size(c.body) + Size(rest)
  }

  function Height(cs: Calls): nat
    decreases cs
  {
    match cs case Done => 0 case Then(c, rest) => Max(1 + Height(c.body), Height(rest))
  }

  function Max(a: nat, b: nat): nat { if a < b then b else a }

  /** As many calls start as there are. */
  predicate AllStart(cs: Calls, agent: Agent, next: nat) { Starts(Traces(cs, agent, next)) == Size(cs) }

  /** Every call of a tree within the depth limit is started when nothing is in its
      way. */
  lemma {:induction false} EveryCallStarts(cs: Calls, agent: Agent, next: nat)
    requires Undisturbed(cs) && agent.depth + Height(cs) <= agent.maxDepth <= 255
    ensures AllStart(cs, agent, next)
    decreases cs
  {
    if cs.Then? {
      var child := PartsFit(cs, agent, next);
      EveryCallStarts(cs.first.body, child, next + 1);
      EveryCallStarts(cs.rest, agent, next + (1 + Size(cs.first.body)));
      ThenStarts(cs, agent, next);
    } else {
      NoneStart(cs, agent, next);
    }
  }

  lemma {:induction false} NoneStart(cs: Calls, agent: Agent, next: nat)
    requires cs.Done?
    ensures AllStart(cs, agent, next)
  {}

  /** What holds of such a tree holds of its parts. */
  lemma {:induction false} PartsFit(cs: Calls, agent: Agent, next: nat) returns (child: Agent)
    requires Undisturbed(cs) && agent.depth + Height(cs) <= agent.maxDepth <= 255 && cs.Then?
    ensures child == Child(agent, next)
    ensures !cs.first.interrupted && cs.first.admitted && cs.first.cut.None? && agent.depth < agent.maxDepth
    ensures Undisturbed(cs.first.body) && child.depth + Height(cs.first.body) <= child.maxDepth <= 255
    ensures Undisturbed(cs.rest) && agent.depth + Height(cs.rest) <= agent.maxDepth
  {
    child := Child(agent, next);
    Uncovered(cs);
  }

  lemma {:induction false} ThenStarts(cs: Calls, agent: Agent, next: nat)
    requires cs.Then? && agent.depth < agent.maxDepth
    requires !cs.first.interrupted && cs.first.admitted && cs.first.cut.None?
    requires AllStart(cs.first.body, Child(agent, next), next + 1)
    requires AllStart(cs.rest, agent, next + (1 + Size(cs.first.body)))
    ensures AllStart(cs, agent, next)
  {
    OneCallStarts(cs.first, agent, next);
    StartsOfThen(cs, agent, next);
  }

  lemma {:induction false} Uncovered(cs: Calls)
    requires Undisturbed(cs) && cs.Then?
    ensures var c := cs.first;
            && !c.interrupted && c.admitted && c.cut.None? && Undisturbed(c.body) && Undisturbed(cs.rest)
            && 1 + Height(c.body) <= Height(cs) && Height(cs.rest) <= Height(cs)
            && Size(cs) == 1 + Size(c.body) + Size(cs.rest)
  {}

  lemma {:induction false} StartsOfThen(cs: Calls, agent: Agent, next: nat)
    requires cs.Then?
    ensures var n := Starts(Trace(cs.first, agent, next));
            Starts(Traces(cs, agent, next)) == n + Starts(Traces(cs.rest, agent, next + n))
  {
    var first := Trace(cs.first, agent, next);
    StartsConcat(first, Traces(cs.rest, agent, next + Starts(first)));
  }

  /** A call that nothing is in the way of starts once more than its body does. */
  lemma {:induction false} OneCallStarts(c: Call, agent: Agent, next: nat)
    requires agent.depth < agent.maxDepth && !c.interrupted && c.admitted && c.cut.None?
    ensures Starts(Trace(c, agent, next)) == 1 + Starts(Traces(c.body, Child(agent, next), next + 1))
  {
    var body := Traces(c.body, Child(agent, next), next + 1);
    assert BodyTrace(c, agent, next) == body;
    StartsBetween(Started(next, agent.parent, agent.depth), body, Finished(next));
  }

  lemma {:induction false} StartsBetween(start: Event, body: seq<Event>, finish: Event)
    requires start.Started? && finish.Finished?
    ensures Starts([start] + body + [finish]) == 1 + Starts(body)
  {
    StartsConcat([start], body);
    StartsConcat([start] + body, [finish]);
    OneEvent(start);
    OneEvent(finish);
  }

  lemma {:induction false} OneEvent(e: Event)
    ensures Starts([e]) == if e.Started? then 1 else 0
  {
    assert [e][..0] == [];
  }
}
