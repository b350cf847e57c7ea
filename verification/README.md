# The agent runtime's protocols, modelled and proved

The `agents` crate lets a language model drive tools. Its hard parts are small
text protocols that printer and parser must agree on, loops whose partner (the
model) may do anything, rendezvous between concurrent tasks, and bounded windows
over growing state. This project models those parts in Dafny, one module per
component, and proves what they promise for every input, every run and every
interleaving.

| module | models |
|---|---|
| `ToolCallLine` | the one-line tool call: printer, name, expectation split, tokenizer, parser |
| `OneArgument` | the verbatim reader for skills that take one argument |
| `OneArgumentExact` | exactly when such a call comes back as it was written or printed |
| `RepairJson` | the lexer that escapes control characters and closes brackets |
| `JsonText` | what that does to printed JSON, cut off or with raw line breaks, said without the lexer |
| `ParameterTags` | the parameter-tag form of a call and the binding of named values |
| `PositionalArgs` | the binding of the values of a one-line call |
| `Conversation` | the delegated conversation loop, and the numbering of its calls over a team's rounds |
| `GuardedCall` | pre-decisions, guards, approval, body and post chain of one call |
| `CallTree` | nested calls and the start/finish events they emit |
| `ReadBeforeEdit` | the version check in front of writes and edits |
| `Broker` | the approval and question rendezvous, as interleaved atomic steps |
| `JobOutput` | the bounded output window of a background job and its spill file |
| `Compaction` | where a history is split |
| `Goal` | the compare-and-set goal state machine and its authority rules |
| `FilePaging` | numbered, capped pages of a file |
| `SuggestedCall` | the call such a page suggests, read and bound |
| `Prompt`, `Ordering` | section assembly and strict interpolation; the sort they use |
| `SkillFile`, `SkillHeader` | the skill file the creator writes and the loader reads; what each line of its header sets |
| `RepeatGuard` | the repeat tracker and canonical JSON |
| `Utf8` | the lossy decoding of bytes |
| `Text` | trimming, searching, splitting into lines, UTF-8 lengths and decimal numerals as the others use them |

Code that loops or changes fields is a method or a class, proved against a
function of its inputs or its old state; the lemmas are about that function.
`dafny verify dfyconfig.toml` checks the whole project.

## Where the code and its promises differ

The model follows the code. Where a promise fails, the lemmas named below show
inputs on which it does and say exactly when it holds; an if-and-only-if does both.

- A call without arguments is printed but cannot be read back
  (`NoArgumentsDoNotParse`; exact domain in `RoundTrip`).
- An argument that ends in an unpaired backslash is misread in front of some
  expectations (`UnpairedBackslashMisreads`; exact domain in
  `VerbatimRoundTripIff`).
- For a skill of one argument the reader does not undo the printer: backslashes,
  line breaks and tabs come back escaped (`PrintedComesBackIff` is an
  if-and-only-if).
- A skill that declares an argument `expectation` never gets the value written under
  that name (`ExpectationIsTakenAway` is an if-and-only-if).
- A parameter value that ends in a carriage return loses it, and one that holds
  `</parameter>` is cut (`ValueRoundTrip` is an if-and-only-if).
- A skill body loses the carriage returns in front of its line breaks
  (`SkillRoundTrip` is an if-and-only-if).
- Call ids are meant to continue over a teammate's rounds
  (crates/agents/src/team.rs:577-593). The trail that the next round counts from
  grows only with a report, so a round that shows a call and then ends without
  one makes a later round reuse its ids. `TeamIdsRepeatIff` is the exact
  condition, `SilentRoundsRepeatAnId` a pair of rounds that meets it.
- An approval accepted between the timeout and the removal is reported as pending
  although the ask comes back denied (`LateAllowIsLost`), and so is one accepted
  before an interrupt is seen (`InterruptLosesAllow`); the exact condition is
  `ReturnsIff`.
- A file that exists but cannot be read counts as absent, so it is overwritten
  without having been read (`UnreadableIsOverwritten`; `NoBlindOverwrite` is an
  if-and-only-if).  A change by another program in the middle of a call on the file
  is overwritten unseen too (`CheckedTooEarly`, `RecordedUnseen`; `BlindAllowedIff`).
- A character that a read of job output falls into is lost to replacement
  characters (`CharacterIsTorn`; `DecodedDeliveriesJoinIff`).
- An earlier `Ask` shadows a later policy's denial (`AskShadowsDeny`; `ExecutesIff`
  is the exact condition).
- A page may be cut with nothing left to read, when only the range header was too
  much (`CutWithNothingLeft` is an if-and-only-if, `OneLineCut` a file it happens
  to).
- crates/protocol/src/lib.rs:1373-1375 calls a blocked goal terminal until a human
  edits it; `edit` refuses terminal goals, so only a resume brings it back
  (`TerminalIsFrozen`).
- The comment at crates/agents/src/subagent.rs:641-642 says guards run even past a
  denial verdict; they are not asked (`GuardsConsultedIff` is an if-and-only-if,
  `DenialSilencesGuard` a list where it shows).

## Model

| member | source | states |
|---|---|---|
| `ToolCallLine.Render` | crates/agents/src/parse_tool_call.rs:1247-1265 | the printer's loops compute the text that `RoundTrip` is about |
| `ToolCallLine.TakeSkillName` | crates/agents/src/parse_tool_call.rs:1127-1145 | the cursor loop finds the same name and remainder, or fails on the same lines, as the specification the round trips use |
| `ToolCallLine.SplitOnExpectation` | crates/agents/src/parse_tool_call.rs:1149-1184 | the quote- and escape-aware scan splits where the specification does |
| `ToolCallLine.TokenizeArgs` | crates/agents/src/parse_tool_call.rs:1190-1243 | the tokenizer returns the specified tokens, or none for an unclosed quote |
| `ToolCallLine.ReadQuotedArg` | crates/agents/src/parse_tool_call.rs:1204-1227 | the inner loop reads one quoted argument and leaves the iterator behind its closing quote |
| `ToolCallLine.ParseLine` | crates/agents/src/parse_tool_call.rs:1046-1067 | the composed parser is the function of the lemmas below |
| `ToolCallLine.ParsedShape` | crates/agents/src/parse_tool_call.rs:1046-1067 | whatever line is accepted, the call has a well-formed name, at least one argument and a trimmed, non-empty expectation |
| `ToolCallLine.PlainIsKept` | crates/agents/src/parse_tool_call.rs:1207-1227 | text with no quote of its own kind and no known escape is read as written, backslashes included |
| `ToolCallLine.RoundTrip` | crates/agents/src/parse_tool_call.rs:1046-1067 | a printed call followed by an expectation parses to exactly that skill, those arguments and the trimmed expectation if and only if the name is well formed, there is an argument and the expectation is not blank |
| `ToolCallLine.NoArgumentsDoNotParse` | crates/agents/src/parse_tool_call.rs:1172-1176 | a printed call without arguments is never read back as itself |
| `ToolCallLine.ReprintingIsStable` | crates/agents/src/parse_tool_call.rs:1245-1265 | for every accepted line, printing the parsed call and parsing it again gives the same call |
| `ToolCallLine.ExpressibleIff` | crates/agents/src/parse_tool_call.rs:1046-1067 | exactly the calls with a well-formed name, an argument and a trimmed, non-empty expectation can be written on a line |
| `ToolCallLine.RenderedInjective` | crates/agents/src/parse_tool_call.rs:1247-1265 | two different calls never print alike, calls without arguments included |
| `ToolCallLine.BareRestIsOneArgument` | crates/agents/src/parse_tool_call.rs:1232-1240 | what stands bare behind quoted arguments is one argument more, whatever spaces it holds |
| `OneArgument.ReadVerbatim` | crates/agents/src/parse_tool_call.rs:337-347 | the inner loop reads one verbatim token; only an escaped quote of its own kind is unescaped |
| `OneArgument.VerbatimTokens` | crates/agents/src/parse_tool_call.rs:324-354 | the token loop returns the specified tokens |
| `OneArgument.SingleSpan` | crates/agents/src/parse_tool_call.rs:359-374 | the peel loop returns the outer span and its trailing options in written order |
| `OneArgument.SplitAfterLastQuote` | crates/agents/src/parse_tool_call.rs:421-442 | the backward scan finds the last separator behind a matching quote |
| `OneArgument.OneArgOfQuoted` | crates/agents/src/parse_tool_call.rs:311-319 | text between quotes of a kind it does not hold is one argument, unchanged |
| `OneArgument.OptionsStaySeparate` | crates/agents/src/parse_tool_call.rs:307-396 | any argument at all, its own quotes escaped, is read back from in front of any number of `'key=value'` tokens, which stay tokens of their own, in order |
| `OneArgument.KeyValueIff` | crates/agents/src/parse_tool_call.rs:388-417 | what an option is: a name in front of the first `=` |
| `OneArgumentExact.VerbatimRoundTripIff` | crates/agents/src/parse_tool_call.rs:253-305 | for a skill of arity one, an argument free of its own quote comes back unchanged as the only argument if and only if it does not end in an unpaired backslash, or the escape-aware split reads nothing and no quote of the expectation has a separator behind it |
| `OneArgumentExact.VerbatimRoundTrip` | crates/agents/src/parse_tool_call.rs:253-270 | so it does for any backslashes and any inner separator when neither argument nor expectation holds the quote |
| `OneArgumentExact.PrintedComesBackIff` | crates/agents/src/parse_tool_call.rs:311-374 | what the printer writes for one argument is read as one argument with its quotes restored and all other escapes kept: as itself if and only if it holds no backslash, line break or tab |
| `OneArgumentExact.UnpairedBackslashMisreads` | crates/agents/src/parse_tool_call.rs:297-305 | behind an unpaired backslash every expectation with a quote and a further separator makes the reader return another argument or none |
| `OneArgumentExact.InnerQuoteRoundTrip` | crates/agents/src/parse_tool_call.rs:288-305 | an argument with its own quote inside, such as an apostrophe, comes back whole from the last-quote split |
| `OneArgumentExact.SimpleExtraStaysSeparate` | crates/agents/src/parse_tool_call.rs:307-410 | an extra of up to 200 bytes without spaces and quotes stays a token of its own |
| `OneArgumentExact.WordsJoinTheArgument` | crates/agents/src/parse_tool_call.rs:307-319 | a second token with words in it means that the quotes belong to the argument: the whole span is the argument |
| `OneArgumentExact.RoundTripFor` | crates/agents/src/parse_tool_call.rs:253-270 | the round trip at the parser the runtime uses: for a skill that does not take exactly one argument a printed call comes back as itself if and only if its name is well formed, it has an argument and the expectation is not blank |
| `OneArgumentExact.UnsplitIsOrdinary` | crates/agents/src/parse_tool_call.rs:259-263 | a call of a skill of one argument that cannot be split as one is read as any other |
| `OneArgumentExact.SkillIsNamed` | crates/agents/src/parse_tool_call.rs:253-270 | whatever is read is a call of the skill the line names |
| `RepairJson.Repair` | crates/agents/src/parse_tool_call.rs:846-884 | the lexer loop computes the repaired text the lemmas below are about |
| `RepairJson.SameScan` | crates/agents/src/parse_tool_call.rs:853-879 | before closers are added the scanner ends in the same state on the repaired text as on the original |
| `RepairJson.RepairBalances` | crates/agents/src/parse_tool_call.rs:880-883 | the result is balanced if and only if no string was left open and no closer was wrong; otherwise nothing is appended |
| `RepairJson.ClosersAreUnique` | crates/agents/src/parse_tool_call.rs:880-883 | among all strings of closing brackets only the appended one balances the text |
| `RepairJson.RepairIdentity` | crates/agents/src/parse_tool_call.rs:842-884 | the text is unchanged if and only if it holds no raw control character to escape and is balanced or beyond repair |
| `RepairJson.RepairedIsClean` | crates/agents/src/parse_tool_call.rs:861-869 | no raw control character to escape is left |
| `RepairJson.RepairIdempotent` | crates/agents/src/parse_tool_call.rs:846-884 | repairing twice is repairing once |
| `RepairJson.EscapeDenotes` | crates/agents/src/parse_tool_call.rs:861-868 | what is written for a control character denotes that character |
| `JsonText.RawTextIsRepaired` | crates/agents/src/parse_tool_call.rs:842-869 | nested JSON printed with raw control characters in its strings is repaired to the same JSON printed properly, and printed JSON is balanced and left alone |
| `JsonText.CutOffValueIsClosed` | crates/agents/src/parse_tool_call.rs:846-884 | printed JSON cut off anywhere outside a string gets one closer for each node still open, innermost first, `]` for an array and `}` for an object; cut off inside a string it is left as it is |
| `JsonText.DroppedClosersComeBack` | crates/agents/src/parse_tool_call.rs:870-883 | JSON that lacks nothing but closers comes back whole |
| `JsonText.WrongCloserIsLeft` | crates/agents/src/parse_tool_call.rs:870-883 | behind a closer that does not answer the innermost open node nothing is appended |
| `ParameterTags.XmlParams` | crates/agents/src/parse_tool_call.rs:555-583 | the loop returns the parameters the lemmas below are about |
| `ParameterTags.ExtractXmlParams` | crates/agents/src/parse_tool_call.rs:528-552 | the scan for the first call with parameters is the specified one |
| `ParameterTags.MakeCall` | crates/agents/src/parse_tool_call.rs:539-549 | the loop sets the last expectation apart and keeps the other parameters in order |
| `ParameterTags.ValueRoundTrip` | crates/agents/src/parse_tool_call.rs:564-594 | a value in the template comes back byte for byte if and only if it holds no closing tag and does not end in a carriage return |
| `ParameterTags.UnclosedValue` | crates/agents/src/parse_tool_call.rs:566-573 | a value without its closing tag ends at the next tag |
| `ParameterTags.ParamRoundTrip` | crates/agents/src/parse_tool_call.rs:560-581 | one printed parameter is read back as itself exactly when its key and value are good |
| `ParameterTags.ParamsRoundTrip` | crates/agents/src/parse_tool_call.rs:555-583 | a printed list is read back as itself if and only if every key and value in it is good |
| `ParameterTags.CallRoundTrip` | crates/agents/src/parse_tool_call.rs:510-552 | a call in the template form, after any prose without a tag and before anything, is extracted as the call its name and its parameters make |
| `ParameterTags.WrittenCallArrives` | crates/agents/src/parse_tool_call.rs:528-552 | every value arrives byte for byte and in order, the last expectation apart, under the name as the line form spells it |
| `ParameterTags.CrLfStripped` | crates/agents/src/parse_tool_call.rs:587-594 | a break of two characters on each side of a value is no part of it |
| `ParameterTags.LooseTagIsRead` | crates/agents/src/parse_tool_call.rs:958-994 | neither the case of the word nor white space inside a tag matters |
| `ParameterTags.BindNamed` | crates/agents/src/registry.rs:264-283 | both loops together compute the binding the lemmas below are about |
| `ParameterTags.BoundAre` | crates/agents/src/registry.rs:259-283 | exactly what is bound: each declared name to its last value, then values under other names to the unbound positionals, both in order, and nothing else |
| `ParameterTags.BoundByPosition` | crates/agents/src/registry.rs:259-283 | the same by the position each value was written in: the last value under a declared name; a value under a foreign name with `n` foreign ones before it goes to the `n`th positional that is left; nothing else is bound |
| `ParameterTags.DistinctAreBound` | crates/agents/src/registry.rs:264-283 | distinct declared names give the object that binds each name to its value |
| `ParameterTags.TemplateReachesSkill` | crates/agents/src/registry.rs:197-211 | end to end: values printed under distinct declared names, with or without an expectation among them, are extracted, resolved and bound to exactly those names |
| `ParameterTags.ExpectationIsTakenAway` | crates/agents/src/parse_tool_call.rs:539-547 | parameters under distinct declared names arrive whole if and only if none is called `expectation` |
| `PositionalArgs.BindPositional` | crates/agents/src/registry.rs:211-230 | the loops compute the binding the lemmas below are about |
| `PositionalArgs.ArgumentsAre` | crates/agents/src/registry.rs:211-230 | what is bound, by position: the `i`th value to the `i`th positional; a declared option to what the last surplus value that carries it says; nothing else |
| `PositionalArgs.OnlyDeclared` | crates/agents/src/registry.rs:239-257 | no text of a call can become an argument the skill does not declare |
| `PositionalArgs.OnePairBinds` | crates/agents/src/registry.rs:250-256 | a surplus `key=value` binds its key if that is declared and is dropped otherwise |
| `PositionalArgs.PackedBind` | crates/agents/src/registry.rs:241-249 | a surplus value of several words, each a pair with a declared key, binds every one |
| `PositionalArgs.ValueRunsOn` | crates/agents/src/registry.rs:245-256 | one word that is no such pair is enough to make the value one pair that runs to its end |
| `Conversation.RunConversation` | crates/agents/src/runner.rs:282-475 | the loop refines the run the lemmas below are about, and ends for every model and tool |
| `Conversation.OnePass` | crates/agents/src/runner.rs:299-474 | one pass through the loop takes the specified branch and leaves the specified variables |
| `Conversation.Settle` | crates/agents/src/runner.rs:353-394 | the reporting tool settles the run, or is refused at the price of a hop |
| `Conversation.LastReply` | crates/agents/src/runner.rs:396-431 | the exit on a spent budget asks once more and settles or reports |
| `Conversation.EveryRun` | crates/agents/src/runner.rs:282-475 | for every model and tool: at most `max_hops + 4` requests (`+ 3` without a schema, 2 without a budget), the transcript only extended, `tool_ok + tool_err == hops <= max_hops`, ok calls are the ok records, records are the tool results shown, ids consecutive; every message shown is explained by the one before it: a tool result is what the tool gave for the call the reply reads as, a correction or a structured error has the reason the reading gave; at most one syntax correction and one reminder; a structured result is what the last reply carried, any other report is that reply or its refused argument, and with budget left a miscall or prose is taken for an answer only after the correction or the reminder |
| `Conversation.BoundIsTight` | crates/agents/src/runner.rs:300-431 | for every budget some model needs exactly that many requests |
| `Conversation.IdsNeverRepeat` | crates/agents/src/runner.rs:452-457 | over any rounds whose start continues the count of calls shown, no id is shown twice |
| `Conversation.TeamIdsRepeatIff` | crates/agents/src/team.rs:577-593 | counted by its reports, a teammate sees an id twice if and only if a round showed a call, ended without a report, and a later round showed a call |
| `Conversation.SilentRoundsRepeatAnId` | crates/agents/src/team.rs:577-593 | from every transcript there are two such rounds, the second on what the first left and the board |
| `Conversation.VerifiedIff` | crates/agents/src/runner.rs:170-176 | a report is verified if and only if its transcript shows a tool result that went well and, with a schema, it has a structured result, which is what the last reply carried and the schema accepted |
| `GuardedCall.PreDecide` | crates/agents/src/subagent.rs:621-724 | the two loops yield no denial exactly when the call may execute, the specified denial otherwise, an approval record exactly when an Ask survived the guards, the context of the allowing policies in order, and how many guards were asked |
| `GuardedCall.GuardsConsultedIff` | crates/agents/src/subagent.rs:641-651 | of some policies, no guard is asked if and only if the verdict is a denial |
| `GuardedCall.DenialSilencesGuard` | crates/agents/src/subagent.rs:641-651 | a list in which a guard that would object is not asked |
| `GuardedCall.ExecutesIff` | crates/agents/src/subagent.rs:630-660 | the body runs if and only if no guard objects and either all policies allow or the first that does not asks and is granted |
| `GuardedCall.DenialIs` | crates/agents/src/subagent.rs:621-724 | what a call that does not run is refused with, by position: the reason of the first decision that is not an allow if it denies, else of the first guard that objects, else of the Ask nobody granted |
| `GuardedCall.AllowContextIs` | crates/agents/src/subagent.rs:626-640 | the context of a call is what the policies in front of the first that does not allow add, in order |
| `GuardedCall.GuardsOnlyRemove` | crates/agents/src/pipeline.rs:36-86 | a guard-only policy put anywhere can only remove executions and approvals, and removes none if it does not object |
| `GuardedCall.GuardOrderIsIrrelevant` | crates/agents/src/pipeline.rs:36-86 | moving guard-only policies changes neither execution nor asking |
| `GuardedCall.AskShadowsDeny` | crates/agents/src/subagent.rs:631-640 | order matters between an Ask and a denial |
| `GuardedCall.PostChain` | crates/agents/src/subagent.rs:727-751 | blocked exactly if some policy vetoes; the first veto keeps the summary, else the last accept has it; all context is kept in order |
| `GuardedCall.PostContextIs` | crates/agents/src/subagent.rs:727-751 | the context of a result is what every policy adds, in order |
| `GuardedCall.PostedIs` | crates/agents/src/subagent.rs:727-751 | the first veto makes the result a failure with its feedback; without one the last policy words it; a denial nobody vetoes stays |
| `GuardedCall.RunGuarded` | crates/agents/src/subagent.rs:471-615 | the whole call: when the body ran, when it counts as ok, when it is reported as a defect, which summary (spilled, posted, paraphrased) and which notices the model reads, whatever was denied or vetoed |
| `GuardedCall.SpilledIff` | crates/agents/src/subagent.rs:827-868 | a result is spilled if and only if it may be, is good, is over 48 KB, the turn goes on and the disk takes it; otherwise nothing changes |
| `GuardedCall.TheWayOnSurvives` | crates/agents/src/subagent.rs:558-600 | however a result is paraphrased, the pointer to its spill file and the line that names the next read stay in it |
| `GuardedCall.CappedPageSurvives` | crates/agents/src/subagent.rs:562-600 | a capped page that is paraphrased still puts the call that reads on in front of the model |
| `CallTree.RunReport` | crates/agents/src/subagent.rs:381-615 | one call with the calls inside it emits, on the shared counter, its specified trace as far as the surrounding bodies live |
| `CallTree.RunBody` | crates/agents/src/subagent.rs:501-530 | the same for the calls of one body in sequence |
| `CallTree.Sink.Start` | crates/agents/src/subagent.rs:425-469 | a fresh id and its start event are one step |
| `CallTree.Sink.Finish` | crates/agents/src/subagent.rs:757-802 | the finish event, unless the call was dropped before |
| `CallTree.RunTurn` | crates/agents/src/subagent.rs:381-615 | a whole turn emits a trace the judge accepts, with a finish for every call outside an abandoned body |
| `CallTree.EveryTraceIsGood` | crates/agents/src/subagent.rs:332-358 | every tree, whatever is denied, interrupted or abandoned in it: ids fresh and consecutive, parent and depth equal to the real nesting, nothing started at or beyond the limit, each finish closing an open call, nothing left open at top level |
| `CallTree.IdsCountUp` | crates/agents/src/subagent.rs:425-469 | in an accepted trace the n-th start carries the n-th id and a depth below the limit |
| `CallTree.FinishClosesStart` | crates/agents/src/subagent.rs:757-802 | in an accepted trace every finish comes after the start of its id |
| `CallTree.FinishedOnce` | crates/agents/src/subagent.rs:757-802 | in an accepted trace no id is finished twice |
| `CallTree.ClosedExactlyOnce` | crates/agents/src/subagent.rs:381-615 | every call outside an abandoned body is closed exactly once after it started, a call inside one at most once |
| `CallTree.CallEmits` | crates/agents/src/subagent.rs:381-527 | what each kind of call emits: nothing at the depth limit or when interrupted; its start and finish alone when it is not let run; everything of its body between them, or the first part of it when the body is abandoned |
| `CallTree.EveryCallStarts` | crates/agents/src/subagent.rs:381-527 | every call of a tree within the depth limit is started when nothing is in its way |
| `ReadBeforeEdit.Policy.PreExecute` | crates/agents/src/pipeline.rs:249-277 | the decision is the one the lemmas below are about |
| `ReadBeforeEdit.Policy.PostExecute` | crates/agents/src/pipeline.rs:279-305 | a successful read, write or edit records the digest on disk and nothing else changes |
| `ReadBeforeEdit.SeenIsRecorded` | crates/agents/src/pipeline.rs:279-305 | the remembered digests are those of what was on disk when the policy last recorded, told from the history alone |
| `ReadBeforeEdit.RecordedIsObserved` | crates/agents/src/pipeline.rs:279-305 | that is what the session itself last read or wrote, as long as nothing else changes the file in the middle of a call on it |
| `ReadBeforeEdit.AllowedIff` | crates/agents/src/pipeline.rs:249-277 | over every run a write or edit is allowed if and only if the file is absent, cannot be read, or has the digest of the content last recorded |
| `ReadBeforeEdit.NoBlindOverwrite` | crates/agents/src/pipeline.rs:220-277 | while nothing else changes a file in the middle of the session's calls on it, content that is not what was last observed (nor collides with it) is protected if and only if the file can be read, and the body meets the file that was checked |
| `ReadBeforeEdit.BlindAllowedIff` | crates/agents/src/pipeline.rs:249-305 | in general a write without having observed the content is let through if and only if the file cannot be read or other content than the observed was recorded |
| `ReadBeforeEdit.RecordedUnseen` | crates/agents/src/pipeline.rs:291-297 | a change between the session's write and its record counts as observed and is overwritten |
| `ReadBeforeEdit.CheckedTooEarly` | crates/agents/src/pipeline.rs:249-277 | a change between the check and the body is overwritten |
| `ReadBeforeEdit.UnreadableIsOverwritten` | crates/agents/src/pipeline.rs:260-263 | a file made unreadable behind the session's back is overwritten, whatever it holds |
| `ReadBeforeEdit.RefusedUntilReread` | crates/agents/src/pipeline.rs:263-277 | an unobserved change of a readable file is refused, and preserved, until the file is read again |
| `ReadBeforeEdit.OwnWritesAreNeverRefused` | crates/agents/src/pipeline.rs:279-299 | after an own read or write, until something else changes the file, the next write is allowed |
| `ReadBeforeEdit.LookedAtIsAllowed` | crates/agents/src/pipeline.rs:279-299 | after a successful read, write or edit of a readable file it may be written and edited until something else changes it |
| `Broker.BrokerSet.NextId` | crates/agents/src/broker.rs:46-49 | the counter step of the state machine, from 1 on |
| `Broker.BrokerSet.InsertSender` | crates/agents/src/broker.rs:62-64 | the insert step |
| `Broker.BrokerSet.Poll` | crates/agents/src/broker.rs:149-164 | one poll of a wait: an interrupt beats an answer that is there, an answer beats the clock |
| `Broker.BrokerSet.RemoveSender` | crates/agents/src/broker.rs:72-74 | the last step of an ask: its sender leaves the map |
| `Broker.BrokerSet.Wait` | crates/agents/src/broker.rs:151-164 | with any steps of other tasks in between, a wait ends woken, with or without an answer |
| `Broker.BrokerSet.AskApproval` | crates/agents/src/broker.rs:53-75 | a whole ask, any steps of other tasks around and between its own: true if and only if an allow for its id was accepted while it waited and no interrupt was seen after that |
| `Broker.BrokerSet.AskQuestion` | crates/agents/src/broker.rs:84-107 | the same for a question and its text |
| `Broker.BrokerSet.ResolveApproval` | crates/agents/src/broker.rs:117-125 | the answer step; true exactly if the id was pending |
| `Broker.BrokerSet.AnswerQuestion` | crates/agents/src/broker.rs:128-136 | the same for questions |
| `Broker.EveryState` | crates/agents/src/broker.rs:34-136 | what every interleaving of asks, answers, timeouts, cancels and drops keeps |
| `Broker.IdsNeverRepeat` | crates/agents/src/broker.rs:46-49 | no id is handed out twice, to either kind of ask |
| `Broker.AcceptedAtMostOnce` | crates/agents/src/broker.rs:109-136 | at most one answer is accepted for an id |
| `Broker.AcceptedIff` | crates/agents/src/broker.rs:109-136 | of an ask that waits or has just woken exactly the first answer that fits its kind is accepted; of any other ask none |
| `Broker.AllowedWasResolved` | crates/agents/src/broker.rs:51-75 | an approval returns true only if exactly one `resolve_approval(id, true)` for its own id was accepted while it was pending |
| `Broker.AnsweredWasResolved` | crates/agents/src/broker.rs:77-107 | a question returns text only from its one accepted answer |
| `Broker.NeverPendingAfterReturn` | crates/agents/src/broker.rs:72-74 | an id is never pending after its ask returned, and later answers are refused |
| `Broker.AcceptedCountsIff` | crates/agents/src/broker.rs:149-164 | an accepted answer reaches its ask if and only if the ask still waited when it was accepted and no interrupt was seen between that and its waking |
| `Broker.ReturnsIff` | crates/agents/src/broker.rs:51-107 | an ask brings back an answer if and only if that answer was accepted while it waited and no interrupt was seen after that |
| `Broker.LateAllowIsLost` | crates/agents/src/broker.rs:72-73 | the interleaving in which an allow accepted after the timeout is lost |
| `Broker.InterruptLosesAllow` | crates/agents/src/broker.rs:157-161 | the interleaving in which an allow accepted in time is lost to an interrupt |
| `JobOutput.Job.Append` | crates/agents/src/jobs.rs:111-119 | the new window, counters and spill after a chunk |
| `JobOutput.Job.SpillBytes` | crates/agents/src/jobs.rs:124-137 | the spill grows by the bytes or, on a failing disk, not at all |
| `JobOutput.Job.TakeUnread` | crates/agents/src/jobs.rs:141-149 | the decoded unread bytes, the lost count and the new mark; the slice never leaves the buffer |
| `JobOutput.WindowIsSuffix` | crates/agents/src/jobs.rs:111-119 | over every run the buffer is the last `min(produced, OUTPUT_CAP)` bytes of the output |
| `JobOutput.SpillIsTheRest` | crates/agents/src/jobs.rs:114-137 | with a working disk the spill is exactly the rest |
| `JobOutput.SpillIsCompleteIff` | crates/agents/src/jobs.rs:121-137 | the spill is short by exactly the bytes whose write failed, and equals what left the window if and only if there are none |
| `JobOutput.NothingIsLost` | crates/agents/src/jobs.rs:139-149 | over every run, putting the deliveries and the counted gaps (bytes that left the window) together gives the output up to the last read, each byte once and in order |
| `JobOutput.SpillFillsTheGaps` | crates/agents/src/jobs.rs:121-149 | the gaps are in the spill file whenever no overflow met a failing disk |
| `JobOutput.EveryByteAccounted` | crates/agents/src/jobs.rs:344-354 | delivered plus lost counts are all bytes up to the last read, even when the disk fails |
| `JobOutput.DecodedDeliveriesJoinIff` | crates/agents/src/jobs.rs:141-149 | for a reader that kept up with a job that printed a text, the decoded deliveries join to that text if and only if no read fell inside a character |
| `JobOutput.CharacterIsTorn` | crates/agents/src/jobs.rs:146-147 | a read between the two bytes of a character hands out two replacement characters |
| `Utf8.DecodeEncode` | crates/agents/src/jobs.rs:146-147 | what a text's bytes decode to, whatever follows them |
| `Utf8.EncodeDecode` | crates/agents/src/jobs.rs:146-147 | bytes that decode without a replacement character are the encoding of the result |
| `Utf8.PartsJoinIff` | crates/agents/src/jobs.rs:146-147 | a text decoded part by part comes out as itself if and only if no part ends inside a character |
| `Utf8.DecodeTakesLongest` | crates/agents/src/jobs.rs:146-147 | bytes that are no text: the decoder takes the longest start of a character there is, or one byte, and writes one replacement character unless it is a whole one |
| `Utf8.Utf8LenIs` | crates/agents/src/builtins.rs:648-668 | the length of a text in bytes is the length of its encoding |
| `Compaction.SplitIndex` | crates/agents/src/compact.rs:175-221 | the two walks return the greatest safe index not above the budget walk's stop, or none below `MIN_FOLD` or on a short history |
| `Compaction.SplitUnique` | crates/agents/src/compact.rs:175-221 | that description determines the result |
| `Compaction.SplitInNumbers` | crates/agents/src/compact.rs:175-221 | in numbers: at least four messages fold and two stay; a tail of more than two is within the budget, or was only grown from such a one to keep a group whole; one message more would have been too much |
| `Compaction.LargerBudgetFoldsLess` | crates/agents/src/compact.rs:181-197 | a larger tail budget never folds more |
| `Compaction.NoGroupStraddles` | crates/agents/src/compact.rs:199-215 | in a well-formed history no call is folded while a result of it stays, and both halves are well formed |
| `Compaction.UnsafeTears` | crates/agents/src/compact.rs:199-215 | at every index the second walk leaves, some group would be torn |
| `Goal.EveryState` | crates/agents/src/goal.rs:60-78 | in every reachable state: rounds within the cap, blocker present exactly when Blocked, revision one more than the accepted mutations, rounds counted exactly |
| `Goal.RoundsAreCapped` | crates/agents/src/goal.rs:61-78 | over a goal's whole life no more rounds run than its cap, at most 256 |
| `Goal.SameRevisionSameGoal` | crates/agents/src/goal.rs:184-268 | two states with one revision are the same state |
| `Goal.AcceptedOnCurrent` | crates/agents/src/goal.rs:184-235 | a mutation presenting the revision read at an earlier step is accepted only if nothing changed since |
| `Goal.StaleIsRefused` | crates/agents/src/goal.rs:194-201 | after any accepted mutation, whoever presents an older revision is refused for ever |
| `Goal.NeverBackByItself` | crates/agents/src/goal.rs:140-174 | without a human resume a goal that left Active never returns, and no round runs |
| `Goal.TerminalChangesIff` | crates/agents/src/goal.rs:194-258 | a completed or blocked goal is changed by an event if and only if it is a human resume at the current revision |
| `Goal.TerminalIsFrozen` | crates/agents/src/goal.rs:202-207 | a completed or blocked goal is unchanged by anything but a human resume |
| `Goal.AcceptedIff` | crates/agents/src/goal.rs:140-268 | which events change a goal, with every authority rule written out, if and only if |
| `Goal.GoalIsItsHistory` | crates/agents/src/goal.rs:119-268 | phase, blocker and objective told from the history: what the last accepted action led to, stated, and worded |
| `FilePaging.NumberedRange` | crates/agents/src/builtins.rs:713-741 | the loop gives the numbered rows of the range, its header or its notice |
| `FilePaging.FormattedRow` | crates/agents/src/builtins.rs:736-738 | row n is line n under its number |
| `FilePaging.NothingShownFits` | crates/agents/src/builtins.rs:648-661 | a read that shows no line is within the 48 KB cap, so no row outside the file is touched |
| `FilePaging.TakeRows` | crates/agents/src/builtins.rs:659-668 | the loop takes the most rows that fit |
| `FilePaging.FitRows` | crates/agents/src/builtins.rs:652-698 | those rows with the range to read next, or the longest head of one over-long line |
| `FilePaging.NumberedPage` | crates/agents/src/builtins.rs:647-698 | which of the four kinds a page is, what it shows, and its exact text, for every range |
| `FilePaging.CappedPageNamesTheWay` | crates/agents/src/builtins.rs:638-698 | the last line of every capped page is found by its mark and suggests to read the same file from behind the last line shown, as many lines as were shown or what is left |
| `FilePaging.RequestIsRespected` | crates/agents/src/builtins.rs:713-735 | a page starts at the line asked for, goes no further than the end asked for or the file, and all the way where it is not cut; it shows nothing exactly if the start is behind the end or the file |
| `FilePaging.RowTells` | crates/agents/src/builtins.rs:736-738 | two rows are alike only if number and line are |
| `SuggestedCall.SuggestionIsRead` | crates/agents/src/builtins.rs:677-698 | end to end: the call a page suggests, made as written, is read and bound to the very path that was read, whatever it holds, and the range suggested |
| `FilePaging.CutWithNothingLeft` | crates/agents/src/builtins.rs:648-697 | a page is cut with nothing left if and only if its rows fit and the text with the header does not |
| `FilePaging.OneLineCut` | crates/agents/src/builtins.rs:648-697 | a file of one ASCII line of 49145 bytes, read from line 1, is such a page |
| `FilePaging.ReadPage` | crates/agents/src/builtins.rs:647-698 | every page shows at least the line it starts at and stays within the cap |
| `FilePaging.ReadOn` | crates/agents/src/builtins.rs:647-698 | reading on from behind the last line shown ends and shows every line number exactly once in order, whatever ends are asked for |
| `FilePaging.Utf8Head` | crates/sica-core/src/retain.rs:56-65 | the longest prefix of whole characters within a number of bytes |
| `Prompt.Interpolate` | crates/agents/src/prompt.rs:177-210 | the loop over the shrinking rest computes the function below, errors included |
| `Prompt.Render` | crates/agents/src/prompt.rs:136-165 | both parts of the prompt are joined from the sorted sections; the first error wins |
| `Prompt.TemplateRoundTrip` | crates/agents/src/prompt.rs:174-210 | interpolating a printed template is evaluating it in one pass; values are never expanded again; the first unknown variable is the error |
| `Prompt.EveryTextIsATemplate` | crates/agents/src/prompt.rs:174-210 | every text is some template and is interpolated as that template |
| `Prompt.JoinedIs` | crates/agents/src/prompt.rs:136-165 | with all variables known, the text is the non-blank sections without trailing space, one blank line between any two |
| `Prompt.JoinedFails` | crates/agents/src/prompt.rs:136-151 | otherwise the first section that fails, in slot order, names the error |
| `Prompt.RenderIs` | crates/agents/src/prompt.rs:136-172 | the two parts of a prompt, each from its own sections by rising order; it fails if and only if some section names an unknown variable |
| `Prompt.OrderIndependent` | crates/agents/src/prompt.rs:136-172 | for sections in distinct slots the result or the error is the same for every insertion order |
| `Prompt.SharedSlotKeepsOrder` | crates/agents/src/prompt.rs:168-172 | distinct slots are needed |
| `Ordering.SortSorts` | crates/agents/src/prompt.rs:168-172 | the sort is sorted by key and a permutation |
| `Ordering.SortIgnoresOrder` | crates/agents/src/prompt.rs:168-172 | where keys determine elements, the order they came in does not matter |
| `Ordering.SortAscends` | crates/agents/src/prompt.rs:168-172 | a sorted list ascends by number, and by name where numbers are equal |
| `SkillFile.Render` | crates/agents/src/skill_creator.rs:118-129 | the buffer ends up as the file the lemmas below are about |
| `SkillFile.Parse` | crates/agents/src/md_skill.rs:226-288 | the line loop returns the specified skill or the specified error |
| `SkillFile.RenderedParses` | crates/agents/src/md_skill.rs:226-288 | name, one-line description and the body's lines are read back, for any body, `---` lines included |
| `SkillFile.BodyRoundTrip` | crates/agents/src/md_skill.rs:276-288 | the body survives less one break at its end and all at its start if and only if no line ends in a carriage return |
| `SkillFile.SkillRoundTrip` | crates/agents/src/skill_creator.rs:78-129 | every skill the creator accepts is read back as itself under that same condition and no other |
| `SkillHeader.FileIs` | crates/agents/src/md_skill.rs:226-288 | a file is a skill if and only if its first line opens a header that a later line closes and that gives a name; it is what the lines between say on top of the defaults, with the rest as its body |
| `SkillHeader.LineSets` | crates/agents/src/md_skill.rs:315-323 | a line sets what its key sets, by its value without outer spaces and quotes |
| `SkillHeader.QuotesAreTrimmed` | crates/agents/src/md_skill.rs:315-323 | a value loses the quotes at its ends and nothing else |
| `SkillHeader.BooleansAreRead` | crates/agents/src/md_skill.rs:292-298 | the spellings of a boolean, in any case |
| `SkillHeader.ListsAreRead` | crates/agents/src/md_skill.rs:304-313 | a list reads as its names, whatever separates them, in brackets or not |
| `SkillHeader.CreatorAccepts` | crates/agents/src/skill_creator.rs:79-91 | which names the creator accepts, if and only if |
| `RepeatGuard.SortedIffSame` | crates/agents/src/guard.rs:65-83 | two JSON trees sort alike if and only if they differ only in key order, at any depth |
| `RepeatGuard.RepeatTracker.Observe` | crates/agents/src/guard.rs:32-52 | the new key and count, and a notice exactly at the thresholds |
| `RepeatGuard.RepeatTracker.Reset` | crates/agents/src/guard.rs:55-58 | back to the fresh tracker |
| `RepeatGuard.KeysAgreeIff` | crates/agents/src/guard.rs:32-39 | two calls have one key if and only if they agree in skill and in arguments up to key order |
| `RepeatGuard.CountIsRunLength` | crates/agents/src/guard.rs:22-58 | over every history the count is the length of the longest run of such calls at its end since the last reset |
| `RepeatGuard.NoticesAtThresholds` | crates/agents/src/guard.rs:18-52 | notices fire exactly at run lengths 3, 5 and 8 |

## Left out

- Which of the call forms a reply is read as (`extract_for`, JSON fences, calls over several lines, wrapper unwrapping, bare calls, `rejected_attempt`): the conversation takes the reading of a reply as an arbitrary function.
- `SkillRegistry::resolve` for JSON arguments, which are forwarded as they are.
- Schema validation (`validate`, `parse_structured`): the conversation takes it as an arbitrary function of the argument.
- Streaming, cancellation tokens, clocks and the file system themselves: they are choices of the environment (a reply that does not come, a step that gives up, a write that fails).
- Log lines and UI payloads of a tool call.
- GuardedCall.RunGuarded: starts behind the depth and interrupt checks, which `CallTree.RunReport` has; the digest, the spill file and the summariser are functions of the environment.
- CallTree.RunReport: the calls of one body run in sequence; concurrent children inside one body are not modelled. An abandoned body is one whose event supply runs out.
- GuardedCall.PreDecide: the wording of refusals is shortened to the part that quotes the reason; the policies' own word lists (permissions, plan mode) are not modelled.
- ReadBeforeEdit.NoBlindOverwrite: the digest is an arbitrary function, so the statement names collisions; calls of one session on one file do not overlap, and path resolution is a parameter.
- Compaction.SplitIndex: the tail budget is a parameter of 32 bits, since the source computes it in floating point; token counts per message are given.
- JobOutput.Job.TakeUnread: looking a job up and windowing one read are not modelled, and a write to disk succeeds or fails as a whole.
- FilePaging.NumberedPage: the file is given as its lines.
- Conversation.EveryRun: hop counts are unbounded numbers, where the source uses 8 bits for `max_hops`; messages are told apart by kind, not by wording.
- Goal.EveryState: the revision is an unbounded number, where the source would stop at 32 bits.
- RepeatGuard.CountIsRunLength: the JSON serialiser is a parameter assumed injective, numbers and strings are atoms, and the notice is given by its count rather than its text.
- Prompt.Render: which sections the main agent is given, and the standard variables, are not modelled.
- The remaining files of the crate (sessions, memory, scheduling, workflows, MCP, IPC, process handling, search) are plumbing, I/O or simpler sums and filters.
