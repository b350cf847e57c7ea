/** One delegated conversation (crates/agents/src/runner.rs): a bounded loop of
    model replies and tool calls that ends in a report.

    The model, the parsers and the tools are not under the loop's control.  They
    are functions of the whole transcript so far; the transcript grows with every
    step, so such functions can produce any sequence of replies and outcomes. */
module Conversation {
  import opened Text

  /** The messages the loop reads and writes, with the parts that vary. */
  datatype Message =
    | Given(role: string, text: string)
    | Assistant(text: string)
    | SyntaxCorrection(reason: string)
    | StructuredReminder
    | StructuredError(problem: string)
    | BudgetExhausted(maxHops: nat)
    | ToolResult(skill: string, ok: bool, id: string, summary: string)

  /** What the parsers make of a reply: a call with its first argument, something
      call-shaped that does not parse, or prose. */
  datatype Reading = Call(skill: string, raw: string) | Rejected(reason: string) | Prose

  datatype Structured = Accepted(value: string) | Refused(problem: string)

  datatype Environment = Environment(
    reply: seq<Message> -> Option<string>,
    read: string -> Reading,
    structured: string -> Structured,
    tool: (seq<Message>, string) -> (bool, string))

  datatype RunSpec = RunSpec(maxHops: nat, hasSchema: bool, callSeqStart: nat)

  datatype CallRecord = CallRecord(id: string, skill: string, ok: bool)

  datatype Report = Report(
    text: string,
    structured: Option<string>,
    toolOk: nat,
    toolErr: nat,
    hops: nat,
    calls: seq<CallRecord>)

  const STRUCTURED_OUTPUT := "structured-output"

  function CallId(n: nat): string { "call-" + Decimal(n) }

  // ------------------------------------------------------------------ the loop

  /** The loop's variables. */
  datatype Loop = Loop(
    transcript: seq<Message>,
    hops: nat,
    toolOk: nat,
    toolErr: nat,
    calls: seq<CallRecord>,
    nudged: bool,
    reminded: bool)

  /** One pass: the loop goes on, or it is over with or without a report. */
  datatype Pass = Again(next: Loop) | Over(transcript: seq<Message>, report: Option<Report>)

  function Start(transcript: seq<Message>): Loop {
    Loop(transcript, 0, 0, 0, [], false, false)
  }

  function Reported(st: Loop, text: string, structured: Option<string>): Report {
    Report(text, structured, st.toolOk, st.toolErr, st.hops, st.calls)
  }

  function Say(st: Loop, m: Message): Loop { st.(transcript := st.transcript + [m]) }

  /** A reply that holds no call; `st` already has it in the transcript. */
  function OnNoCall(spec: RunSpec, st: Loop, reply: string, rejected: Option<string>): Pass {
    if rejected.Some? && !st.nudged && st.hops < spec.maxHops then
      Again(Say(st, SyntaxCorrection(rejected.value)).(nudged := true))
    else if spec.hasSchema && !st.reminded && st.hops < spec.maxHops then
      Again(Say(st, StructuredReminder).(reminded := true))
    else Over(st.transcript, Some(Reported(st, reply, None)))
  }

  function OnStructured(env: Environment, spec: RunSpec, st: Loop, raw: string): Pass {
    match env.structured(raw)
    case Accepted(value) => Over(st.transcript, Some(Reported(st, raw, Some(value))))
    case Refused(problem) =>
      if st.hops < spec.maxHops then
        Again(Say(st, StructuredError(problem)).(hops := st.hops + 1, toolErr := st.toolErr + 1))
      else
        Over(st.transcript, Some(Reported(st, RefusalText(problem, raw), None)))
  }

  function RefusalText(problem: string, raw: string): string {
    "invalid structured report: " + problem + "\n\n" + raw
  }

  /** The budget is spent: one last reply. */
  function OnExhausted(env: Environment, spec: RunSpec, st: Loop): Pass {
    var asked := Say(st, BudgetExhausted(spec.maxHops));
    match env.reply(asked.transcript)
    case None => Over(asked.transcript, None)
    case Some(last) =>
      var t := asked.transcript + [Assistant(last)];
      var reading := env.read(last);
      if spec.hasSchema && reading.Call? && reading.skill == STRUCTURED_OUTPUT
          && env.structured(reading.raw).Accepted? then
        Over(t, Some(Reported(st, reading.raw, Some(env.structured(reading.raw).value))))
      else
        Over(t, Some(Reported(st, last, None)))
  }

  function OnTool(env: Environment, spec: RunSpec, st: Loop, skill: string): Pass {
    var (ok, summary) := env.tool(st.transcript, skill);
    var id := CallId(spec.callSeqStart + |st.calls| + 1);
    Again(Loop(
            st.transcript + [ToolResult(skill, ok, id, summary)],
            st.hops + 1,
            if ok then st.toolOk + 1 else st.toolOk,
            if ok then st.toolErr else st.toolErr + 1,
            st.calls + [CallRecord(id, skill, ok)],
            st.nudged,
            st.reminded))
  }

  function Next(env: Environment, spec: RunSpec, st: Loop): Pass {
    match env.reply(st.transcript)
    case None => Over(st.transcript, None)
    case Some(reply) =>
      var heard := Say(st, Assistant(reply));
      match env.read(reply)
      case Prose => OnNoCall(spec, heard, reply, None)
      case Rejected(reason) => OnNoCall(spec, heard, reply, Some(reason))
      case Call(skill, raw) =>
        if skill == STRUCTURED_OUTPUT then OnStructured(env, spec, heard, raw)
        else if st.hops >= spec.maxHops then OnExhausted(env, spec, heard)
        else OnTool(env, spec, heard, skill)
  }

  function Bit(b: bool): nat { if b then 1 else 0 }

  /** Every pass that goes on spends a hop, the nudge or the reminder. */
  function Budget(spec: RunSpec, st: Loop): int {
    spec.maxHops - st.hops + 2 - Bit(st.nudged) - Bit(st.reminded)
  }

  lemma NextSpends(env: Environment, spec: RunSpec, st: Loop)
    requires st.hops <= spec.maxHops
    ensures var pass := Next(env, spec, st);
            pass.Again? ==> 0 <= Budget(spec, pass.next) < Budget(spec, st) && pass.next.hops <= spec.maxHops
  {}

  function Run(env: Environment, spec: RunSpec, st: Loop): (seq<Message>, Option<Report>)
    requires st.hops <= spec.maxHops
    decreases Budget(spec, st)
  {
    match Next(env, spec, st)
    case Over(transcript, report) => (transcript, report)
    case Again(next) => Run(env, spec, next)
  }

  /** The reporting tool settles the run instead of dispatching, or is refused. */
  method Settle(env: Environment, spec: RunSpec, st: Loop, raw: string) returns (pass: Pass)
    ensures pass == OnStructured(env, spec, st, raw)
  {
    match env.structured(raw) {
      case Accepted(value) =>
        return Over(st.transcript, Some(Reported(st, raw, Some(value))));
      case Refused(problem) =>
        if st.hops < spec.maxHops {
          return Again(Say(st, StructuredError(problem)).(hops := st.hops + 1, toolErr := st.toolErr + 1));
        }
        return Over(st.transcript, Some(Reported(st, RefusalText(problem, raw), None)));
    }
  }

  /** The loop's last exit: the budget is spent and the model is asked once more. */
  method LastReply(env: Environment, spec: RunSpec, st: Loop)
    returns (transcript: seq<Message>, report: Option<Report>)
    ensures OnExhausted(env, spec, st) == Over(transcript, report)
  {
    transcript := st.transcript + [BudgetExhausted(spec.maxHops)];
    var last := env.reply(transcript);
    if last.None? { return transcript, None; }
    transcript := transcript + [Assistant(last.value)];
    if spec.hasSchema {
      var again := env.read(last.value);
      if again.Call? && again.skill == STRUCTURED_OUTPUT {
        var settled := env.structured(again.raw);
        if settled.Accepted? {
          return transcript, Some(Reported(st, again.raw, Some(settled.value)));
        }
      }
    }
    return transcript, Some(Reported(st, last.value, None));
  }

  /** One pass through the loop: a reply, and what is done about it. */
  method OnePass(env: Environment, spec: RunSpec, st: Loop) returns (pass: Pass)
    ensures pass == Next(env, spec, st)
  {
    var reply := env.reply(st.transcript);
    if reply.None? { return Over(st.transcript, None); }
    var heard := Say(st, Assistant(reply.value));
    var reading := env.read(reply.value);
    if !reading.Call? {
      if reading.Rejected? && !st.nudged && st.hops < spec.maxHops {
        return Again(Say(heard, SyntaxCorrection(reading.reason)).(nudged := true));
      }
      if spec.hasSchema && !st.reminded && st.hops < spec.maxHops {
        return Again(Say(heard, StructuredReminder).(reminded := true));
      }
      return Over(heard.transcript, Some(Reported(heard, reply.value, None)));
    }
    if reading.skill == STRUCTURED_OUTPUT {
      pass := Settle(env, spec, heard, reading.raw);
      return;
    }
    if st.hops >= spec.maxHops {
      var transcript, report := LastReply(env, spec, heard);
      return Over(transcript, report);
    }
    var (ok, summary) := env.tool(heard.transcript, reading.skill);
    var toolOk, toolErr := st.toolOk, st.toolErr;
    if ok { toolOk := toolOk + 1; } else { toolErr := toolErr + 1; }
    var id := CallId(spec.callSeqStart + |st.calls| + 1);
    var calls := st.calls + [CallRecord(id, reading.skill, ok)];
    var transcript := heard.transcript + [ToolResult(reading.skill, ok, id, summary)];
    return Again(Loop(transcript, st.hops + 1, toolOk, toolErr, calls, st.nudged, st.reminded));
  }

  method RunConversation(env: Environment, spec: RunSpec, given: seq<Message>)
    returns (transcript: seq<Message>, report: Option<Report>)
    ensures (transcript, report) == Run(env, spec, Start(given))
  {
    var st := Start(given);
    while true
      invariant st.hops <= spec.maxHops && Run(env, spec, Start(given)) == Run(env, spec, st)
      decreases Budget(spec, st)
    {
      var pass := OnePass(env, spec, st);
      NextSpends(env, spec, st);
      if pass.Over? { return pass.transcript, pass.report; }
      st := pass.next;
    }
  }

  // ----------------------------------------------------- what a transcript says

  /** The replies in a stretch of transcript, the tool results it shows, in
      order, the structured results it refuses, and how often the model was told to
      mend its syntax and reminded of the structured result. */
  datatype Tally = Tally(replies: nat, records: seq<CallRecord>, refusals: nat, nudges: nat, reminders: nat)

  function Count(t: Tally, m: Message): Tally {
    match m
    case Assistant(_) => t.(replies := t.replies + 1)
    case ToolResult(skill, ok, id, _) => t.(records := t.records + [CallRecord(id, skill, ok)])
    case StructuredError(_) => t.(refusals := t.refusals + 1)
    case SyntaxCorrection(_) => t.(nudges := t.nudges + 1)
    case StructuredReminder => t.(reminders := t.reminders + 1)
    case _ => t
  }

  function TallyOf(ms: seq<Message>): Tally {
    if ms == [] then Tally(0, [], 0, 0, 0) else Count(TallyOf(ms[..|ms| - 1]), ms[|ms| - 1])
  }

  function Replies(ms: seq<Message>): nat { TallyOf(ms).replies }

  function OkCalls(calls: seq<CallRecord>): nat {
    if calls == [] then 0 else OkCalls(calls[..|calls| - 1]) + Bit(calls[|calls| - 1].ok)
  }

  lemma {:induction false} Appended(ms: seq<Message>, m: Message)
    ensures TallyOf(ms + [m]) == Count(TallyOf(ms), m)
  {}

  predicate ConsecutiveIds(calls: seq<CallRecord>, start: nat) {
    forall i :: 0 <= i < |calls| ==> calls[i].id == CallId(start + i + 1)
  }

  /** The books agree with what was said. */
  ghost predicate Booked(spec: RunSpec, said: Tally, hops: nat, toolOk: nat, toolErr: nat, calls: seq<CallRecord>) {
    && hops <= spec.maxHops
    && toolOk + toolErr == hops
    && toolOk == OkCalls(calls)
    && |calls| + said.refusals == hops
    && calls == said.records
    && ConsecutiveIds(calls, spec.callSeqStart)
  }

  /** The books, and where the replies went: `pending` of them await handling. */
  ghost predicate Books(spec: RunSpec, said: Tally, st: Loop, pending: nat) {
    && Booked(spec, said, st.hops, st.toolOk, st.toolErr, st.calls)
    && said.replies == st.hops + said.nudges + said.reminders + pending
    && said.nudges == Bit(st.nudged) && said.reminders == Bit(st.reminded)
    && (st.reminded ==> spec.hasSchema)
    && (st.nudged || st.reminded ==> spec.maxHops > 0)
  }

  /** What the run added to the messages it was given. */
  ghost function Added(given: seq<Message>, t: seq<Message>): Tally
    requires given <= t
  {
    TallyOf(t[|given|..])
  }

  /** What every pass through the head of the loop keeps. */
  ghost predicate Inv(spec: RunSpec, given: seq<Message>, st: Loop) {
    given <= st.transcript && Books(spec, Added(given, st.transcript), st, 0)
  }

  /** The most replies a run can ask for. */
  function ReplyBound(spec: RunSpec): nat {
    if spec.maxHops == 0 then 2 else if spec.hasSchema then spec.maxHops + 4 else spec.maxHops + 3
  }

  /** The last message is the model's. */
  predicate EndsInReply(t: seq<Message>) { t != [] && t[|t| - 1].Assistant? }

  function LastText(t: seq<Message>): string
    requires EndsInReply(t)
  {
    t[|t| - 1].text
  }

  /** A settled structured result is what the model's own last call carried.  Any
      other report is the last reply as it stands, or the refused argument of its
      structured call; with budget left, a miscall is only taken for an answer
      after one correction, prose in place of a structured result only after one
      reminder, and a call never. */
  ghost predicate Backed(env: Environment, spec: RunSpec, said: Tally, transcript: seq<Message>, report: Report) {
    EndsInReply(transcript) &&
    var reading := env.read(LastText(transcript));
    if report.structured.Some? then
      && reading == Call(STRUCTURED_OUTPUT, report.text)
      && env.structured(report.text) == Accepted(report.structured.value)
    else
      && (report.text == LastText(transcript) || IsRefusal(env, reading, report.text))
      && (report.hops < spec.maxHops ==>
            && (reading.Rejected? ==> said.nudges == 1)
            && (spec.hasSchema ==> said.reminders == 1)
            && !reading.Call?)
  }

  predicate IsRefusal(env: Environment, reading: Reading, text: string) {
    && reading.Call? && reading.skill == STRUCTURED_OUTPUT
    && env.structured(reading.raw).Refused?
    && text == RefusalText(env.structured(reading.raw).problem, reading.raw)
  }

  /** What the caller of a finished run may rely on, given what was said in it. */
  ghost predicate Settled(env: Environment, spec: RunSpec, said: Tally, transcript: seq<Message>,
      report: Option<Report>) {
    && said.replies + Bit(report.None?) <= ReplyBound(spec)
    && said.nudges <= 1 && said.reminders <= 1
    && ConsecutiveIds(said.records, spec.callSeqStart)
    && match report
       case None => env.reply(transcript) == None
       case Some(r) =>
         Booked(spec, said, r.hops, r.toolOk, r.toolErr, r.calls) && Backed(env, spec, said, transcript, r)
  }

  ghost predicate Accounted(env: Environment, spec: RunSpec, given: seq<Message>, transcript: seq<Message>,
      report: Option<Report>) {
    given <= transcript && Settled(env, spec, Added(given, transcript), transcript, report)
  }

  lemma {:induction false} Said(given: seq<Message>, t: seq<Message>, m: Message)
    requires given <= t
    ensures given <= t + [m] && Added(given, t + [m]) == Count(Added(given, t), m)
  {
    assert (t + [m])[|given|..] == t[|given|..] + [m];
    Appended(t[|given|..], m);
  }

  /** The loop goes on with one message more, and the books still agree. */
  ghost predicate GoesOn(spec: RunSpec, said: Tally, heard: Loop, next: Loop) {
    exists m :: next.transcript == heard.transcript + [m] && Books(spec, Count(said, m), next, 0)
  }

  /** One pass keeps the books; `said` is what was said up to and including the
      reply. */
  lemma {:induction false} NoCallKeeps(env: Environment, spec: RunSpec, said: Tally, heard: Loop, reply: string,
      rejected: Option<string>)
    requires Books(spec, said, heard, 1) && EndsInReply(heard.transcript) && LastText(heard.transcript) == reply
    requires env.read(reply) == match rejected case Some(reason) => Rejected(reason) case None => Prose
    ensures match OnNoCall(spec, heard, reply, rejected)
            case Again(next) => GoesOn(spec, said, heard, next)
            case Over(t, report) => t == heard.transcript && Settled(env, spec, said, t, report)
  {}

  lemma {:induction false} StructuredKeeps(env: Environment, spec: RunSpec, said: Tally, heard: Loop, raw: string)
    requires Books(spec, said, heard, 1) && EndsInReply(heard.transcript)
    requires env.read(LastText(heard.transcript)) == Call(STRUCTURED_OUTPUT, raw)
    ensures match OnStructured(env, spec, heard, raw)
            case Again(next) => GoesOn(spec, said, heard, next)
            case Over(t, report) => t == heard.transcript && Settled(env, spec, said, t, report)
  {}

  lemma {:induction false} CallKeeps(spec: RunSpec, said: Tally, heard: Loop, c: CallRecord, next: Loop)
    requires Books(spec, said, heard, 1) && heard.hops < spec.maxHops
    requires c.id == CallId(spec.callSeqStart + |heard.calls| + 1)
    requires next.hops == heard.hops + 1 && next.calls == heard.calls + [c]
    requires next.toolOk == heard.toolOk + Bit(c.ok) && next.toolErr == heard.toolErr + Bit(!c.ok)
    requires next.nudged == heard.nudged && next.reminded == heard.reminded
    ensures Books(spec, said.(records := said.records + [c]), next, 0)
  {}

  /** The loop after a tool call with that outcome. */
  function Called(heard: Loop, c: CallRecord, summary: string): Loop {
    Loop(
      heard.transcript + [ToolResult(c.skill, c.ok, c.id, summary)],
      heard.hops + 1,
      heard.toolOk + Bit(c.ok),
      heard.toolErr + Bit(!c.ok),
      heard.calls + [c],
      heard.nudged,
      heard.reminded)
  }

  lemma {:induction false} CalledKeeps(spec: RunSpec, said: Tally, heard: Loop, c: CallRecord, summary: string)
    requires Books(spec, said, heard, 1) && heard.hops < spec.maxHops
    requires c.id == CallId(spec.callSeqStart + |heard.calls| + 1)
    ensures GoesOn(spec, said, heard, Called(heard, c, summary))
  {
    var m := ToolResult(c.skill, c.ok, c.id, summary);
    CallKeeps(spec, said, heard, c, Called(heard, c, summary));
    assert Count(said, m) == said.(records := said.records + [c]);
    GoesOnWith(spec, said, heard, Called(heard, c, summary), m);
  }

  lemma {:induction false} ToolKeeps(env: Environment, spec: RunSpec, said: Tally, heard: Loop, skill: string)
    requires Books(spec, said, heard, 1) && heard.hops < spec.maxHops
    ensures match OnTool(env, spec, heard, skill)
            case Again(next) => GoesOn(spec, said, heard, next)
            case Over(_, _) => false
  {
    var (ok, summary) := env.tool(heard.transcript, skill);
    var c := CallRecord(CallId(spec.callSeqStart + |heard.calls| + 1), skill, ok);
    assert OnTool(env, spec, heard, skill) == Again(Called(heard, c, summary));
    CalledKeeps(spec, said, heard, c, summary);
  }

  lemma {:induction false} GoesOnWith(spec: RunSpec, said: Tally, heard: Loop, next: Loop, m: Message)
    requires next.transcript == heard.transcript + [m] && Books(spec, Count(said, m), next, 0)
    ensures GoesOn(spec, said, heard, next)
  {}

  lemma {:induction false} ExhaustedEnds(env: Environment, spec: RunSpec, given: seq<Message>, heard: Loop)
    requires given <= heard.transcript && Books(spec, Added(given, heard.transcript), heard, 1)
    requires heard.hops >= spec.maxHops
    ensures match OnExhausted(env, spec, heard)
            case Again(next) => false
            case Over(t, report) => Accounted(env, spec, given, t, report)
  {
    var asked := heard.transcript + [BudgetExhausted(spec.maxHops)];
    Said(given, heard.transcript, BudgetExhausted(spec.maxHops));
    var last := env.reply(asked);
    if last.Some? { Said(given, asked, Assistant(last.value)); }
  }

  /** From one message more in the books to one more in the transcript. */
  lemma {:induction false} PassKeeps(spec: RunSpec, given: seq<Message>, heard: Loop, next: Loop)
    requires given <= heard.transcript
    requires GoesOn(spec, Added(given, heard.transcript), heard, next)
    ensures Inv(spec, given, next)
  {
    var m :| next.transcript == heard.transcript + [m]
        && Books(spec, Count(Added(given, heard.transcript), m), next, 0);
    Said(given, heard.transcript, m);
  }

  lemma {:induction false} NextKeeps(env: Environment, spec: RunSpec, given: seq<Message>, st: Loop)
    requires Inv(spec, given, st)
    ensures match Next(env, spec, st)
            case Again(next) => Inv(spec, given, next)
            case Over(t, report) => Accounted(env, spec, given, t, report)
  {
    var reply := env.reply(st.transcript);
    if reply.Some? {
      Said(given, st.transcript, Assistant(reply.value));
      var heard := Say(st, Assistant(reply.value));
      var said := Added(given, heard.transcript);
      match env.read(reply.value) {
        case Prose => NoCallKeeps(env, spec, said, heard, reply.value, None);
        case Rejected(reason) => NoCallKeeps(env, spec, said, heard, reply.value, Some(reason));
        case Call(skill, raw) =>
          if skill == STRUCTURED_OUTPUT {
            StructuredKeeps(env, spec, said, heard, raw);
          } else if st.hops >= spec.maxHops {
            ExhaustedEnds(env, spec, given, heard);
          } else {
            ToolKeeps(env, spec, said, heard, skill);
          }
      }
      if Next(env, spec, st).Again? { PassKeeps(spec, given, heard, Next(env, spec, st).next); }
    }
  }

  lemma {:induction false} RunKeeps(env: Environment, spec: RunSpec, given: seq<Message>, st: Loop)
    requires Inv(spec, given, st)
    ensures var (t, report) := Run(env, spec, st); Accounted(env, spec, given, t, report)
    decreases Budget(spec, st)
  {
    NextKeeps(env, spec, given, st);
    var pass := Next(env, spec, st);
    if pass.Again? {
      NextSpends(env, spec, st);
      RunKeeps(env, spec, given, pass.next);
    }
  }

  // ------------------------------------------------- what each message stands for

  /** The reply that `before` ends in, as the parsers read it. */
  function LastReading(env: Environment, before: seq<Message>): Reading
    requires EndsInReply(before)
  {
    env.read(LastText(before))
  }

  /** Why the loop adds `m` behind `before`: a reply is what the model says to all of
      `before`, and everything else answers the reply before it.  A tool result is
      the outcome of the tool that the reply calls; a correction gives the reason the
      reply was rejected for, a refusal the problem of its structured result; the
      reminder answers prose (or a call botched once more) where a structured result
      is owed; the budget is declared
      spent to a call when it is. */
  ghost predicate Explains(env: Environment, spec: RunSpec, given: seq<Message>, before: seq<Message>, m: Message)
    requires given <= before
  {
    match m
    case Assistant(text) =>
      env.reply(before) == Some(text) && (|before| > |given| ==> !EndsInReply(before))
    case ToolResult(skill, ok, _, summary) =>
      && |before| > |given| && EndsInReply(before) && skill != STRUCTURED_OUTPUT
      && (exists raw :: LastReading(env, before) == Call(skill, raw))
      && env.tool(before, skill) == (ok, summary)
    case SyntaxCorrection(reason) =>
      |before| > |given| && EndsInReply(before) && LastReading(env, before) == Rejected(reason)
    case StructuredError(problem) =>
      && |before| > |given| && EndsInReply(before) && LastReading(env, before).Call?
      && LastReading(env, before).skill == STRUCTURED_OUTPUT
      && env.structured(LastReading(env, before).raw) == Refused(problem)
    case StructuredReminder =>
      && |before| > |given| && EndsInReply(before) && spec.hasSchema && !LastReading(env, before).Call?
      && (LastReading(env, before).Rejected? ==> Added(given, before).nudges == 1)
    case BudgetExhausted(maxHops) =>
      && |before| > |given| && EndsInReply(before) && LastReading(env, before).Call?
      && LastReading(env, before).skill != STRUCTURED_OUTPUT
      && maxHops == spec.maxHops == |Added(given, before).records| + Added(given, before).refusals
    case Given(_, _) => false
  }

  ghost predicate ExplainedAt(env: Environment, spec: RunSpec, given: seq<Message>, t: seq<Message>, i: nat)
    requires |given| <= i < |t| && given <= t
  {
    given <= t[..i] && Explains(env, spec, given, t[..i], t[i])
  }

  ghost predicate AllExplained(env: Environment, spec: RunSpec, given: seq<Message>, t: seq<Message>) {
    given <= t && forall i: nat :: |given| <= i < |t| ==> ExplainedAt(env, spec, given, t, i)
  }

  lemma {:induction false} ExplainedMore(
    env: Environment, spec: RunSpec, given: seq<Message>, t: seq<Message>, m: Message)
    requires AllExplained(env, spec, given, t) && Explains(env, spec, given, t, m)
    ensures AllExplained(env, spec, given, t + [m])
  {
    var t' := t + [m];
    forall i: nat | |given| <= i < |t'|
      ensures ExplainedAt(env, spec, given, t', i)
    {
      if i < |t| {
        assert ExplainedAt(env, spec, given, t, i);
        assert t'[..i] == t[..i] && t'[i] == t[i];
      } else {
        assert t'[..i] == t;
      }
    }
  }

  /** The model's turn: the transcript is as it was given or ends in an answer to it. */
  ghost predicate Open(env: Environment, spec: RunSpec, given: seq<Message>, t: seq<Message>) {
    AllExplained(env, spec, given, t) && (|t| > |given| ==> !EndsInReply(t))
  }

  lemma {:induction false} ReplyExplained(
    env: Environment, spec: RunSpec, given: seq<Message>, t: seq<Message>, text: string)
    requires Open(env, spec, given, t) && env.reply(t) == Some(text)
    ensures AllExplained(env, spec, given, t + [Assistant(text)])
  {
    ExplainedMore(env, spec, given, t, Assistant(text));
  }

  /** One message more in answer to the reply, and it is the model's turn again. */
  lemma {:induction false} AnswerExplained(
    env: Environment, spec: RunSpec, given: seq<Message>, heard: seq<Message>, m: Message)
    requires AllExplained(env, spec, given, heard) && Explains(env, spec, given, heard, m) && !m.Assistant?
    ensures Open(env, spec, given, heard + [m])
  {
    ExplainedMore(env, spec, given, heard, m);
  }

  ghost predicate PassExplained(env: Environment, spec: RunSpec, given: seq<Message>, pass: Pass) {
    match pass
    case Again(next) => Open(env, spec, given, next.transcript)
    case Over(t, _) => AllExplained(env, spec, given, t)
  }

  lemma {:induction false} NoCallExplained(
    env: Environment, spec: RunSpec, given: seq<Message>, heard: Loop, reply: string, rejected: Option<string>)
    requires AllExplained(env, spec, given, heard.transcript)
    requires |heard.transcript| > |given| && EndsInReply(heard.transcript)
    requires LastReading(env, heard.transcript)
             == match rejected case Some(reason) => Rejected(reason) case None => Prose
    requires heard.nudged ==> Added(given, heard.transcript).nudges == 1
    ensures PassExplained(env, spec, given, OnNoCall(spec, heard, reply, rejected))
  {
    var t := heard.transcript;
    if rejected.Some? && !heard.nudged && heard.hops < spec.maxHops {
      AnswerExplained(env, spec, given, t, SyntaxCorrection(rejected.value));
    } else if spec.hasSchema && !heard.reminded && heard.hops < spec.maxHops {
      AnswerExplained(env, spec, given, t, StructuredReminder);
    }
  }

  lemma {:induction false} StructuredExplained(
    env: Environment, spec: RunSpec, given: seq<Message>, heard: Loop, raw: string)
    requires AllExplained(env, spec, given, heard.transcript)
    requires |heard.transcript| > |given| && EndsInReply(heard.transcript)
    requires LastReading(env, heard.transcript) == Call(STRUCTURED_OUTPUT, raw)
    ensures PassExplained(env, spec, given, OnStructured(env, spec, heard, raw))
  {
    match env.structured(raw)
    case Accepted(_) =>
    case Refused(problem) =>
      if heard.hops < spec.maxHops {
        AnswerExplained(env, spec, given, heard.transcript, StructuredError(problem));
      }
  }

  lemma {:induction false} ToolExplained(
    env: Environment, spec: RunSpec, given: seq<Message>, heard: Loop, skill: string, raw: string)
    requires AllExplained(env, spec, given, heard.transcript)
    requires |heard.transcript| > |given| && EndsInReply(heard.transcript)
    requires LastReading(env, heard.transcript) == Call(skill, raw) && skill != STRUCTURED_OUTPUT
    ensures PassExplained(env, spec, given, OnTool(env, spec, heard, skill))
  {
    var (ok, summary) := env.tool(heard.transcript, skill);
    var id := CallId(spec.callSeqStart + |heard.calls| + 1);
    AnswerExplained(env, spec, given, heard.transcript, ToolResult(skill, ok, id, summary));
  }

  lemma {:induction false} ExhaustedExplained(
    env: Environment, spec: RunSpec, given: seq<Message>, heard: Loop)
    requires AllExplained(env, spec, given, heard.transcript)
    requires |heard.transcript| > |given| && EndsInReply(heard.transcript)
    requires LastReading(env, heard.transcript).Call? && LastReading(env, heard.transcript).skill != STRUCTURED_OUTPUT
    requires var said := Added(given, heard.transcript); spec.maxHops == |said.records| + said.refusals
    ensures PassExplained(env, spec, given, OnExhausted(env, spec, heard))
  {
    var asked := heard.transcript + [BudgetExhausted(spec.maxHops)];
    AnswerExplained(env, spec, given, heard.transcript, BudgetExhausted(spec.maxHops));
    var last := env.reply(asked);
    if last.Some? { ReplyExplained(env, spec, given, asked, last.value); }
  }

  lemma {:induction false} NextExplained(env: Environment, spec: RunSpec, given: seq<Message>, st: Loop)
    requires Inv(spec, given, st) && Open(env, spec, given, st.transcript)
    ensures PassExplained(env, spec, given, Next(env, spec, st))
  {
    var reply := env.reply(st.transcript);
    if reply.Some? {
      ReplyExplained(env, spec, given, st.transcript, reply.value);
      Said(given, st.transcript, Assistant(reply.value));
      var heard := Say(st, Assistant(reply.value));
      match env.read(reply.value) {
        case Prose => NoCallExplained(env, spec, given, heard, reply.value, None);
        case Rejected(reason) => NoCallExplained(env, spec, given, heard, reply.value, Some(reason));
        case Call(skill, raw) =>
          if skill == STRUCTURED_OUTPUT {
            StructuredExplained(env, spec, given, heard, raw);
          } else if st.hops >= spec.maxHops {
            ExhaustedExplained(env, spec, given, heard);
          } else {
            ToolExplained(env, spec, given, heard, skill, raw);
          }
      }
    }
  }

  lemma {:induction false} RunExplained(env: Environment, spec: RunSpec, given: seq<Message>, st: Loop)
    requires Inv(spec, given, st) && Open(env, spec, given, st.transcript)
    ensures AllExplained(env, spec, given, Run(env, spec, st).0)
    decreases Budget(spec, st)
  {
    NextKeeps(env, spec, given, st);
    NextExplained(env, spec, given, st);
    var pass := Next(env, spec, st);
    if pass.Again? {
      NextSpends(env, spec, st);
      RunExplained(env, spec, given, pass.next);
    }
  }

  /** The whole promise of a run: its books agree with its transcript, and every
      message of the transcript is what the model, the parsers, the schema or the tool
      made it. */
  ghost predicate Outcome(env: Environment, spec: RunSpec, given: seq<Message>, t: seq<Message>,
                          report: Option<Report>) {
    Accounted(env, spec, given, t, report) && AllExplained(env, spec, given, t)
  }

  /** Whatever the model and the tools do, a run ends after at most `ReplyBound`
      requests, only extends the transcript, and its books match the transcript:
      hops are ok and failed calls together, ok calls are the ok records, the
      records are the tool results shown, and their ids count on from the start. */
  lemma {:induction false} EveryRun(env: Environment, spec: RunSpec, given: seq<Message>)
    ensures var (t, report) := Run(env, spec, Start(given)); Outcome(env, spec, given, t, report)
  {
    assert given[|given|..] == [];
    assert Added(given, given) == Tally(0, [], 0, 0, 0);
    RunKeeps(env, spec, given, Start(given));
    RunExplained(env, spec, given, Start(given));
  }

  // ---------------------------------------------------------- the bound is met

  /** A model that, given a budget, botches a call and then answers in prose where
      that buys it a reminder, and from then on calls for ever. */
  function Stubborn(spec: RunSpec): Environment {
    Environment(
      (t: seq<Message>) =>
        Some(if spec.maxHops > 0 && |t| == 0 then "r"
             else if spec.maxHops > 0 && |t| == 2 && spec.hasSchema then "p"
             else "c"),
      (s: string) => if s == "r" then Rejected("syntax") else if s == "p" then Prose else Call("x", ""),
      (s: string) => Refused(""),
      (t: seq<Message>, s: string) => (true, ""))
  }

  lemma {:induction false} RepliesAppended(ms: seq<Message>, m: Message)
    ensures Replies(ms + [m]) == Replies(ms) + Bit(m.Assistant?)
  {}

  lemma {:induction false} StubbornRuns(spec: RunSpec, st: Loop)
    requires st.hops <= spec.maxHops
    requires spec.maxHops > 0
             ==> |st.transcript| >= 2 && st.nudged && (spec.hasSchema ==> |st.transcript| > 2 && st.reminded)
    ensures Replies(Run(Stubborn(spec), spec, st).0) == Replies(st.transcript) + (spec.maxHops - st.hops) + 2
    decreases spec.maxHops - st.hops
  {
    var env := Stubborn(spec);
    var heard := Say(st, Assistant("c"));
    RepliesAppended(st.transcript, Assistant("c"));
    assert env.read("c") == Call("x", "");
    if st.hops < spec.maxHops {
      var next := OnTool(env, spec, heard, "x").next;
      RepliesAppended(heard.transcript, next.transcript[|heard.transcript|]);
      assert Next(env, spec, st) == Again(next);
      StubbornRuns(spec, next);
    } else {
      var asked := heard.transcript + [BudgetExhausted(spec.maxHops)];
      RepliesAppended(heard.transcript, BudgetExhausted(spec.maxHops));
      RepliesAppended(asked, Assistant("c"));
      assert Next(env, spec, st) == OnExhausted(env, spec, heard);
    }
  }

  /** The bound cannot be lowered: for every budget and either kind of run there
      is a model that takes exactly that many requests. */
  lemma {:induction false} BoundIsTight(spec: RunSpec)
    ensures Replies(Run(Stubborn(spec), spec, Start([])).0) == ReplyBound(spec)
  {
    if spec.maxHops == 0 {
      StubbornRuns(spec, Start([]));
    } else {
      TightWithBudget(spec);
    }
  }

  lemma {:induction false} TightWithBudget(spec: RunSpec)
    requires spec.maxHops > 0
    ensures Replies(Run(Stubborn(spec), spec, Start([])).0) == ReplyBound(spec)
  {
    var env := Stubborn(spec);
    var r, c := [Assistant("r")], SyntaxCorrection("syntax");
    var s1 := Loop(r + [c], 0, 0, 0, [], true, false);
    assert [] + r == r;
    assert Next(env, spec, Start([])) == Again(s1);
    RepliesAppended([], Assistant("r"));
    RepliesAppended(r, c);
    if spec.hasSchema {
      var t2 := s1.transcript + [Assistant("p")];
      var s2 := Loop(t2 + [StructuredReminder], 0, 0, 0, [], true, true);
      RepliesAppended(s1.transcript, Assistant("p"));
      RepliesAppended(t2, StructuredReminder);
      assert Next(env, spec, s1) == Again(s2);
      StubbornRuns(spec, s2);
    } else {
      StubbornRuns(spec, s1);
    }
  }

  // ------------------------------------------------------- several runs in a row

  datatype Round = Round(env: Environment, spec: RunSpec, given: seq<Message>)

  /** The calls a round showed to the model, whether or not it ended in a report. */
  function Shown(r: Round): seq<CallRecord> {
    var t := Run(r.env, r.spec, Start(r.given)).0;
    if |r.given| <= |t| then TallyOf(t[|r.given|..]).records else []
  }

  /** The calls a round reported: none, if it ended without a report. */
  function Trail(r: Round): seq<CallRecord> {
    match Run(r.env, r.spec, Start(r.given)).1
    case Some(report) => report.calls
    case None => []
  }

  /** Where a round starts counting, the calls it showed and those it reported. */
  datatype Stretch = Stretch(start: nat, records: seq<CallRecord>, trail: seq<CallRecord>)

  function StretchOf(r: Round): Stretch { Stretch(r.spec.callSeqStart, Shown(r), Trail(r)) }

  function Stretches(rounds: seq<Round>): seq<Stretch> {
    seq(|rounds|, i requires 0 <= i < |rounds| => StretchOf(rounds[i]))
  }

  function AllRecords(ss: seq<Stretch>): seq<CallRecord> {
    if ss == [] then [] else ss[0].records + AllRecords(ss[1..])
  }

  function AllShown(rounds: seq<Round>): seq<CallRecord> { AllRecords(Stretches(rounds)) }

  /** Every round starts counting where the one before it stopped. */
  predicate Continues(ss: seq<Stretch>, start: nat) {
    ss == [] || (ss[0].start == start && Continues(ss[1..], start + |ss[0].records|))
  }

  lemma {:induction false} ShownIds(r: Round)
    ensures ConsecutiveIds(Shown(r), r.spec.callSeqStart)
  {
    EveryRun(r.env, r.spec, r.given);
  }

  lemma {:induction false} IdsJoined(a: seq<CallRecord>, b: seq<CallRecord>, start: nat)
    requires ConsecutiveIds(a, start) && ConsecutiveIds(b, start + |a|)
    ensures ConsecutiveIds(a + b, start)
  {}

  lemma {:induction false} IdsCountOn(ss: seq<Stretch>, start: nat)
    requires Continues(ss, start) && forall i :: 0 <= i < |ss| ==> ConsecutiveIds(ss[i].records, ss[i].start)
    ensures ConsecutiveIds(AllRecords(ss), start)
    decreases |ss|
  {
    if ss != [] {
      assert forall i :: 0 < i < |ss| ==> ss[1..][i - 1] == ss[i];
      IdsCountOn(ss[1..], start + |ss[0].records|);
      IdsJoined(ss[0].records, AllRecords(ss[1..]), start);
    }
  }

  lemma {:induction false} RoundsCountOn(rounds: seq<Round>, start: nat)
    requires Continues(Stretches(rounds), start)
    ensures ConsecutiveIds(AllShown(rounds), start)
  {
    var ss := Stretches(rounds);
    forall i | 0 <= i < |ss|
      ensures ConsecutiveIds(ss[i].records, ss[i].start)
    {
      ShownIds(rounds[i]);
    }
    IdsCountOn(ss, start);
  }

  lemma {:induction false} CallIdInjective(m: nat, n: nat)
    requires CallId(m) == CallId(n)
    ensures m == n
  {
    assert CallId(m)[5..] == Decimal(m) && CallId(n)[5..] == Decimal(n);
    DecimalInjective(m, n);
  }

  /** Over any number of rounds that carry the count on, no call id is shown
      twice. */
  lemma {:induction false} IdsNeverRepeat(rounds: seq<Round>, start: nat)
    requires Continues(Stretches(rounds), start)
    ensures !Repeats(AllShown(rounds))
  {
    RoundsCountOn(rounds, start);
    ConsecutiveAreDistinct(AllShown(rounds), start);
  }

  // ------------------------------------------------------- how a team carries on

  /** A teammate's round starts counting at the length of its trail, and only a
      report extends the trail (crates/agents/src/team.rs). */
  predicate FollowsTrail(ss: seq<Stretch>, count: nat) {
    ss == [] || (ss[0].start == count && FollowsTrail(ss[1..], count + |ss[0].trail|))
  }

  /** What a finished run guarantees about its stretch. */
  ghost predicate Sound(s: Stretch) {
    ConsecutiveIds(s.records, s.start) && (s.trail == s.records || s.trail == [])
  }

  ghost predicate AllSound(ss: seq<Stretch>) { forall i :: 0 <= i < |ss| ==> Sound(ss[i]) }

  /** Calls shown but not reported, and calls shown later. */
  ghost predicate LostAt(ss: seq<Stretch>, a: nat, b: nat)
    requires a < b < |ss|
  {
    ss[a].trail != ss[a].records && ss[b].records != []
  }

  ghost predicate Loses(ss: seq<Stretch>) { exists a, b :: 0 <= a < b < |ss| && LostAt(ss, a, b) }

  ghost predicate Repeats(calls: seq<CallRecord>) {
    exists i, j :: 0 <= i < j < |calls| && calls[i].id == calls[j].id
  }

  lemma {:induction false} SoundTail(ss: seq<Stretch>)
    requires ss != [] && AllSound(ss)
    ensures AllSound(ss[1..]) && Sound(ss[0])
  {}

  lemma {:induction false} NothingShown(ss: seq<Stretch>)
    ensures AllRecords(ss) == [] <==> forall i :: 0 <= i < |ss| ==> ss[i].records == []
    decreases |ss|
  {
    if ss != [] {
      NothingShown(ss[1..]);
      assert forall i :: 0 < i < |ss| ==> ss[1..][i - 1] == ss[i];
    }
  }

  lemma {:induction false} LosesTail(ss: seq<Stretch>)
    requires ss != []
    ensures Loses(ss) <==> Loses(ss[1..]) || (ss[0].trail != ss[0].records && AllRecords(ss[1..]) != [])
  {
    var rest := ss[1..];
    NothingShown(rest);
    assert forall i :: 0 <= i < |rest| ==> rest[i] == ss[i + 1];
    if Loses(ss) {
      var a, b :| 0 <= a < b < |ss| && LostAt(ss, a, b);
      if a > 0 { assert LostAt(rest, a - 1, b - 1); } else { assert rest[b - 1].records != []; }
    }
    if Loses(rest) {
      var a, b :| 0 <= a < b < |rest| && LostAt(rest, a, b);
      assert LostAt(ss, a + 1, b + 1);
    }
    if ss[0].trail != ss[0].records && AllRecords(rest) != [] {
      var b :| 0 <= b < |rest| && rest[b].records != [];
      assert LostAt(ss, 0, b + 1);
    }
  }

  lemma {:induction false} TrailCountsOn(ss: seq<Stretch>, count: nat)
    requires FollowsTrail(ss, count) && AllSound(ss) && !Loses(ss)
    ensures ConsecutiveIds(AllRecords(ss), count)
    decreases |ss|
  {
    if ss != [] {
      var first, rest := ss[0], ss[1..];
      SoundTail(ss);
      LosesTail(ss);
      TrailCountsOn(rest, count + |first.trail|);
      if first.trail == first.records {
        IdsJoined(first.records, AllRecords(rest), count);
      } else {
        assert first.records + AllRecords(rest) == first.records;
      }
    }
  }

  /** The next call shown gets the next id after the trail. */
  lemma {:induction false} NextShown(ss: seq<Stretch>, count: nat)
    requires FollowsTrail(ss, count) && AllSound(ss) && AllRecords(ss) != []
    ensures AllRecords(ss)[0].id == CallId(count + 1)
    decreases |ss|
  {
    SoundTail(ss);
    if ss[0].records == [] {
      assert AllRecords(ss) == AllRecords(ss[1..]);
      NextShown(ss[1..], count);
    } else {
      assert AllRecords(ss)[0] == ss[0].records[0];
    }
  }

  lemma {:induction false} RepeatsAfter(front: seq<CallRecord>, calls: seq<CallRecord>)
    requires Repeats(calls)
    ensures Repeats(front + calls)
  {
    var n := |front|;
    var i, j :| 0 <= i < j < |calls| && calls[i].id == calls[j].id;
    assert (front + calls)[n + i].id == (front + calls)[n + j].id;
  }

  lemma {:induction false} LosingRepeats(ss: seq<Stretch>, count: nat)
    requires FollowsTrail(ss, count) && AllSound(ss) && Loses(ss)
    ensures Repeats(AllRecords(ss))
    decreases |ss|
  {
    var first, rest := ss[0], ss[1..];
    SoundTail(ss);
    LosesTail(ss);
    if Loses(rest) {
      LosingRepeats(rest, count + |first.trail|);
      RepeatsAfter(first.records, AllRecords(rest));
    } else {
      NextShown(rest, count);
      var all, n := AllRecords(ss), |first.records|;
      assert all[0] == first.records[0] && all[n] == AllRecords(rest)[0];
    }
  }

  lemma {:induction false} ConsecutiveAreDistinct(calls: seq<CallRecord>, start: nat)
    requires ConsecutiveIds(calls, start)
    ensures !Repeats(calls)
  {
    forall i, j | 0 <= i < j < |calls|
      ensures calls[i].id != calls[j].id
    {
      if CallId(start + i + 1) == CallId(start + j + 1) { CallIdInjective(start + i + 1, start + j + 1); }
    }
  }

  lemma {:induction false} RoundIsSound(r: Round)
    ensures Sound(StretchOf(r))
    ensures Trail(r) == if Run(r.env, r.spec, Start(r.given)).1.Some? then Shown(r) else []
  {
    EveryRun(r.env, r.spec, r.given);
  }

  ghost predicate EndsWithoutReport(r: Round) { Run(r.env, r.spec, Start(r.given)).1.None? }

  /** A teammate is shown the same call id twice if and only if one of its rounds
      showed a call and then ended without a report, and a later round showed a
      call. */
  lemma {:induction false} TeamIdsRepeatIff(rounds: seq<Round>, count: nat)
    requires FollowsTrail(Stretches(rounds), count)
    ensures Repeats(AllShown(rounds)) <==>
            exists a, b :: 0 <= a < b < |rounds| && EndsWithoutReport(rounds[a]) && Shown(rounds[a]) != []
                && Shown(rounds[b]) != []
  {
    var ss := Stretches(rounds);
    forall i | 0 <= i < |rounds|
      ensures Sound(ss[i]) && (ss[i].trail != ss[i].records <==> EndsWithoutReport(rounds[i]) && Shown(rounds[i]) != [])
    {
      RoundIsSound(rounds[i]);
    }
    if Loses(ss) {
      LosingRepeats(ss, count);
      var a, b :| 0 <= a < b < |ss| && LostAt(ss, a, b);
      assert EndsWithoutReport(rounds[a]) && Shown(rounds[b]) != [];
    } else {
      TrailCountsOn(ss, count);
      ConsecutiveAreDistinct(AllRecords(ss), count);
      forall a, b | 0 <= a < b < |rounds|
        ensures !(EndsWithoutReport(rounds[a]) && Shown(rounds[a]) != [] && Shown(rounds[b]) != [])
      {
        assert !LostAt(ss, a, b);
      }
    }
  }

  /** A model that calls a tool and then, asked for more, says nothing. */
  function Fading(asked: nat): Environment {
    Environment(
      (t: seq<Message>) => if |t| == asked then Some("c") else None,
      (s: string) => Call("x", ""),
      (s: string) => Refused(""),
      (t: seq<Message>, s: string) => (true, ""))
  }

  lemma {:induction false} FadingRuns(spec: RunSpec, given: seq<Message>)
    requires spec.maxHops > 0
    ensures var m := ToolResult("x", true, CallId(spec.callSeqStart + 1), "");
            Run(Fading(|given|), spec, Start(given)) == (given + [Assistant("c")] + [m], None)
  {
    var env := Fading(|given|);
    var next := OnTool(env, spec, Say(Start(given), Assistant("c")), "x").next;
    assert Next(env, spec, Start(given)) == Again(next);
    assert Next(env, spec, next) == Over(next.transcript, None);
  }

  lemma {:induction false} OneCallShown(given: seq<Message>, a: Message, m: Message)
    requires m.ToolResult? && a.Assistant?
    ensures given <= given + [a] + [m] && |Added(given, given + [a] + [m]).records| == 1
  {
    Said(given, given, a);
    Said(given, given + [a], m);
    assert given[|given|..] == [];
  }

  lemma {:induction false} FadingRound(spec: RunSpec, given: seq<Message>)
    requires spec.maxHops > 0
    ensures var r := Round(Fading(|given|), spec, given);
            EndsWithoutReport(r) && |Shown(r)| == 1
  {
    FadingRuns(spec, given);
    OneCallShown(given, Assistant("c"), ToolResult("x", true, CallId(spec.callSeqStart + 1), ""));
  }

  /** It does happen: a round of that kind, and another on the transcript it left and
      the board of the round, counted as a team counts them, show the same id
      twice. */
  lemma {:induction false} SilentRoundsRepeatAnId(given: seq<Message>, board: seq<Message>, maxHops: nat)
    requires maxHops > 0
    ensures var spec := RunSpec(maxHops, true, 0);
            var carried := Run(Fading(|given|), spec, Start(given)).0 + board;
            var rounds := [Round(Fading(|given|), spec, given), Round(Fading(|carried|), spec, carried)];
            FollowsTrail(Stretches(rounds), 0) && Repeats(AllShown(rounds))
  {
    var spec := RunSpec(maxHops, true, 0);
    FadingPair(spec, given, Run(Fading(|given|), spec, Start(given)).0 + board);
  }

  lemma {:induction false} FadingPair(spec: RunSpec, given: seq<Message>, carried: seq<Message>)
    requires spec.maxHops > 0 && spec.callSeqStart == 0
    ensures var rounds := [Round(Fading(|given|), spec, given), Round(Fading(|carried|), spec, carried)];
            FollowsTrail(Stretches(rounds), 0) && Repeats(AllShown(rounds))
  {
    var rounds := [Round(Fading(|given|), spec, given), Round(Fading(|carried|), spec, carried)];
    FadingRound(spec, given);
    FadingRound(spec, carried);
    FadingFollows(rounds);
    TeamIdsRepeatIff(rounds, 0);
    assert EndsWithoutReport(rounds[0]) && Shown(rounds[0]) != [] && Shown(rounds[1]) != [];
  }

  lemma {:induction false} FadingFollows(rounds: seq<Round>)
    requires |rounds| == 2 && rounds[0].spec.callSeqStart == 0 == rounds[1].spec.callSeqStart
    requires EndsWithoutReport(rounds[0])
    ensures FollowsTrail(Stretches(rounds), 0)
  {}

  // ---------------------------------------------------------- verified reports

  /** A report counts as verified only if the transcript shows a tool result that
      went well, and, where a schema was set, a validated result. */
  predicate Verified(r: Report, wantedSchema: bool) {
    r.toolOk > 0 && (!wantedSchema || r.structured.Some?)
  }

  lemma {:induction false} OkCallExists(calls: seq<CallRecord>)
    requires OkCalls(calls) > 0
    ensures exists i :: 0 <= i < |calls| && calls[i].ok
  {
    if !calls[|calls| - 1].ok {
      OkCallExists(calls[..|calls| - 1]);
      var i :| 0 <= i < |calls| - 1 && calls[..|calls| - 1][i].ok;
      assert calls[i].ok;
    }
  }

  lemma {:induction false} RecordsAreShown(ms: seq<Message>, c: CallRecord)
    requires c in TallyOf(ms).records
    ensures exists i :: 0 <= i < |ms| && ms[i].ToolResult? && CallRecord(ms[i].id, ms[i].skill, ms[i].ok) == c
  {
    var n := |ms| - 1;
    var front := ms[..n];
    if c in TallyOf(front).records {
      RecordsAreShown(front, c);
      var i :| 0 <= i < n && front[i].ToolResult? && CallRecord(front[i].id, front[i].skill, front[i].ok) == c;
      assert ms[i] == front[i];
    } else {
      assert ms[n].ToolResult?;
    }
  }

  lemma {:induction false} OkResultShown(given: seq<Message>, t: seq<Message>, calls: seq<CallRecord>)
    requires given <= t && TallyOf(t[|given|..]).records == calls && OkCalls(calls) > 0
    ensures exists i :: |given| <= i < |t| && t[i].ToolResult? && t[i].ok
  {
    var added := t[|given|..];
    OkCallExists(calls);
    var k :| 0 <= k < |calls| && calls[k].ok;
    RecordsAreShown(added, calls[k]);
    var i :| 0 <= i < |added| && added[i].ToolResult?
        && CallRecord(added[i].id, added[i].skill, added[i].ok) == calls[k];
    assert t[|given| + i] == added[i];
  }

  /** The outcomes a transcript shows, by position. */
  ghost predicate ShowsSuccess(given: seq<Message>, t: seq<Message>) {
    exists i :: |given| <= i < |t| && t[i].ToolResult? && t[i].ok
  }

  lemma {:induction false} OkCallCounts(calls: seq<CallRecord>, i: nat)
    requires i < |calls| && calls[i].ok
    ensures OkCalls(calls) > 0
    decreases |calls|
  {
    if i < |calls| - 1 { OkCallCounts(calls[..|calls| - 1], i); }
  }

  lemma {:induction false} ShownIsRecorded(ms: seq<Message>, i: nat)
    requires i < |ms| && ms[i].ToolResult?
    ensures CallRecord(ms[i].id, ms[i].skill, ms[i].ok) in TallyOf(ms).records
    decreases |ms|
  {
    if i < |ms| - 1 { ShownIsRecorded(ms[..|ms| - 1], i); }
  }

  lemma {:induction false} SuccessCounts(given: seq<Message>, t: seq<Message>)
    requires given <= t
    ensures OkCalls(Added(given, t).records) > 0 <==> ShowsSuccess(given, t)
  {
    var added, calls := t[|given|..], Added(given, t).records;
    if OkCalls(calls) > 0 { OkResultShown(given, t, calls); }
    if i :| |given| <= i < |t| && t[i].ToolResult? && t[i].ok {
      assert added[i - |given|] == t[i];
      ShownIsRecorded(added, i - |given|);
      var c := CallRecord(t[i].id, t[i].skill, t[i].ok);
      var k :| 0 <= k < |calls| && calls[k] == c;
      OkCallCounts(calls, k);
    }
  }

  /** A report counts as verified if and only if its transcript shows a tool result
      that went well and, where a schema was set, the model's last call carried a
      structured result that validates. */
  lemma {:induction false} VerifiedIff(env: Environment, spec: RunSpec, given: seq<Message>, t: seq<Message>,
                                       report: Report)
    requires Run(env, spec, Start(given)) == (t, Some(report))
    ensures Verified(report, spec.hasSchema)
            <==> ShowsSuccess(given, t) && (spec.hasSchema ==> report.structured.Some?)
    ensures report.structured.Some? ==>
              && EndsInReply(t) && env.read(LastText(t)) == Call(STRUCTURED_OUTPUT, report.text)
              && env.structured(report.text) == Accepted(report.structured.value)
  {
    EveryRun(env, spec, given);
    SuccessCounts(given, t);
  }
}
