# Models of rysh's run pipeline and its neighbours

Rysh drives command-line agents: it runs a prompt headless and reports what
happened, replays such runs as evaluations, serves a session to other programs
over stdio, watches files, and sets itself up through a wizard. These Dafny
modules model the parts of it that hold state machines, loops over interleaved
input, and text that has to be read back, and prove what they are for.

| module | what it models |
|---|---|
| ToolCalls | pairing the interleaved step stream of a run into one audit entry per tool call |
| RunEvents | the bounded, drop-on-full event queue and the one consumer that decides the exit code |
| Budget | usage totals, the one breach report, and the `--budget` value |
| Baseline | promoting a recorded run to an evaluation's golden transcript, with every file operation allowed to fail |
| StdioServer | the JSON-RPC loop on stdin and stdout with one goroutine per call |
| McpGate | the session tools: which exist, how a pane is named, the policy gate before every write |
| RecordGuard | the goroutine that keeps a daemon's session record truthful, racing its shutdown |
| Wizard | the onboarding wizard and its validation ping, which carries no token |
| Masking | replacing every occurrence of a text by a mask, and which texts can come back |
| TwoMasks | a home path behind its own mask and the user name's |
| Redaction | masking secrets, home path and user name in a shared run record |
| GitStatus | parsing `git status -z` and the difference of two snapshots |
| SkillFile | the frontmatter of a skill file, printed and split |
| BoardArgs | order-free flags and the arguments of `board send`, `ack` and `inbox` |
| Escaping | XML and systemd escaping, against the readers they are meant for |
| UnitFile | the systemd unit of a session, against a reader of unit files |
| Checksum | stamping a registry manifest |
| Debounce | the prompt watcher's debounce loop |
| WaitLoop | polling for the state of a pane |
| Text | splitting, joining, trimming, searching and decimal numerals, as Go does them |

Code that updates fields or slices is a class or a method with loops, proved
against a specification function or a step of a state machine; goroutines are
state machines whose theorems range over every interleaving. Clocks, replies of
the session, outcomes of file operations, detectors, number and JSON parsing are
parameters, so the theorems hold for all of them.

## Where code and documentation disagree

The model follows the code. Each item names the lemma with a concrete input and
the exact condition under which the promise holds.

- `run_cmd.go:755-758` says that dropping behind 256 pending events is safe. A
  run's "done" can be what is dropped (RunEvents.DoneCanBeLost); it is safe
  exactly when fewer than 256 are pending (RunEvents.DecidesIffRoom).
- `eval_cli.go:342` says that the previous transcript is restored when the move
  fails. The restoring rename may fail too and is not looked at; the transcript
  then is whole, but in `.baseline-prev` (Baseline.RestoreCanFail), and nothing
  brings it back. It is restored exactly when that rename works, or recorded/ was
  never moved (the KeptNotPromoted clause of Baseline.CaseDir.PromoteBaseline).
- `eval_cli.go:204-211` says that a replay and a recording are mutually exclusive.
  With --live given as well both are made, and the judge is skipped: a recording
  it would refuse is promoted (Baseline.ReplayPromotesUnjudged). What is promoted
  was judged, where the case asks for it, exactly when the run was no replay
  (Baseline.GoldenProvenance); such a run is refused exactly without --live
  (Baseline.ReplayRecordsIff).
- `wait_cmd.go:29-30` says that an unreadable pane is unknown
  (WaitLoop.LostReadEndsTheWait). It is exactly while no program was seen
  (WaitLoop.UnreadableIsUnknownIffNothingSeen).
- `run_cmd.go:172-176` multiplies in int64 unchecked, and `run_cmd.go:163`
  converts a dollar amount of any size: an accepted budget can enforce nothing
  (Budget.OverflowDisablesBudget, Budget.DollarsOverflow). The conditions are
  Budget.CeilingFaithfulIffFits and Budget.DollarsEnforcedIff.
- `onboard_cmd.go:96-97` says that the config never gets a literal key. An input
  that holds a reference among other text goes in as it is
  (Wizard.MixedKeyGoesIntoConfig, Wizard.KeyIsAReferenceIff).
- `run_result.go:218-219` says that renames and copies carry their origin as a
  further field. The code looks for it after R or C in the first letter only; git
  prints it for the second letter as well (GitStatus.WorkTreeMoveMisread,
  GitStatus.ParsesIffOriginsInIndex).
- `board_send_cmd.go:60-62` takes flags from anywhere, before it looks for "--":
  a message can lose words to them (BoardArgs.BodyCanBeEaten,
  BoardArgs.BodyArrivesIffSafe).
- `service_cmd.go:116-117` quotes an ExecStart argument, the program's path among
  them, and line 133 assigns the directory as it is. Not every path survives that
  (UnitFile.PathsThatDoNotRun, UnitFile.DirsThatAreNotRead); a directory can even
  take the command back (UnitFile.DirectoryTakesCommandBack). The condition is
  UnitFile.UnitRunsIffPlain, spelled out in UnitFile.PlainIff.
- `doctor_cmd.go:309-311` says that "---" inside a value is not mistaken for the
  delimiter. It is where it has a line to itself (SkillFile.FenceInValue,
  SkillFile.SplitOfBuild).
- `run_record.go:308-319` is there so that no home path and no user name is
  shared. A path that runs into a mask, and a name that begins as one reads, are
  shown again (Redaction.HomesThatComeBack, Redaction.Rules.HomeGoneIffSafe,
  Redaction.Rules.HomeShownIff, Redaction.Rules.UserPassIff).
- An end stamped 0 leaves its call "incomplete" (ToolCalls.EndAtZeroLooksIncomplete,
  ToolCalls.IncompleteIffNoZeroEnd), and two keys that redact alike lose an entry
  (Redaction.SecretKeysCollide, Redaction.EntriesKeptIffNoCollision).

## Model

| member | source | states |
|---|---|---|
| ToolCalls.PairToolCalls | cmd/rysh/run_audit.go:300-339 | the loops with one queue of call indices per "origin/depth" key return one entry for each start, in order: tool, input, start time, iteration and depth are the start's own; end time and digest are those of the end that closes the earliest open call of its origin and depth, start plus duration is the end; an open call has no end, duration or digest and is incomplete |
| ToolCalls.PairSteps | cmd/rysh/run_audit.go:300-334 | the first loop keeps the entries of the queue-free pairing `Pair`, in which every end closes the earliest open call of its own origin and depth |
| ToolCalls.EntryOfCall | cmd/rysh/run_audit.go:306-337 | what the entry of a call says of its two steps, field by field |
| ToolCalls.DigestIsLast | cmd/rysh/run_audit.go:357-363 | the digest is what follows the last separator, and empty exactly without one |
| ToolCalls.WhereStartsStand | cmd/rysh/run_audit.go:304-306 | the start steps are just the steps of that kind, each once, in stream order |
| ToolCalls.WhereEndsStand | cmd/rysh/run_audit.go:304-320 | and so are the end steps |
| ToolCalls.CloseEntry | cmd/rysh/run_audit.go:326-332 | closing an entry fills in end time, duration and result digest of that entry and of no other; start plus duration is the end, when the start is positive and not later |
| ToolCalls.MarkIncomplete | cmd/rysh/run_audit.go:335-337 | the last pass marks exactly the entries whose end time is 0 |
| ToolCalls.QueueHeadIsEarliest | cmd/rysh/run_audit.go:320-327 | the head of a key's queue is the call the queue-free pairing closes, and an empty queue means it closes none |
| ToolCalls.QueuesAfterStart | cmd/rysh/run_audit.go:306-319 | a start keeps every queue listing the open calls of its key, oldest first |
| ToolCalls.QueuesAfterEnd | cmd/rysh/run_audit.go:320-333 | popping the head and closing that call keeps the queues so |
| ToolCalls.KeyInjective | cmd/rysh/run_audit.go:303 | the "%s/%d" key names one (origin, depth) even when origins contain slashes |
| ToolCalls.PairInLane | cmd/rysh/run_audit.go:300-339 | projecting the stream to one origin and depth commutes with pairing |
| ToolCalls.FifoPerLane | cmd/rysh/run_audit.go:320-333 | within a lane, in any interleaving with others, the k-th start is closed by the k-th end that finds an open call |
| ToolCalls.EntriesAreTheStarts | cmd/rysh/run_audit.go:306-319 | the entries are the starts, all of them, in stream order |
| ToolCalls.OpenIffBehind | cmd/rysh/run_audit.go:318-325 | a lane has an open call exactly when it accepted fewer ends than it saw starts |
| ToolCalls.EndsConserved | cmd/rysh/run_audit.go:320-333 | as a multiset, the ends are those that close a call and those that are dropped: none is used twice |
| ToolCalls.Conservation | cmd/rysh/run_audit.go:300-339 | starts = completed + incomplete and ends = completed + dropped, for every stream |
| ToolCalls.ExtensionKeepsPairings | cmd/rysh/run_audit.go:300-339 | later steps never undo a pairing or change an entry's start |
| ToolCalls.TitleRoundTrip | cmd/rysh/run_audit.go:343-351 | the input printed behind "<tool>: " is read back |
| ToolCalls.ResultSummaryRoundTrip | cmd/rysh/run_audit.go:353-363 | the digest printed after the separator is read back if and only if no separator starts inside it |
| ToolCalls.IncompleteIffNoZeroEnd | cmd/rysh/run_audit.go:335-337 | "incomplete" tells the calls that never ended, for all of them, if and only if no closing end has timestamp 0 |
| ToolCalls.EndAtZeroLooksIncomplete | cmd/rysh/run_audit.go:328-337 | a start and its end stamped 0: the call is paired, and audited as incomplete |
| RunEvents.DecideRunOutcome | cmd/rysh/run_cmd.go:392-423 | exit 0 if and only if the deciding signal is the phase "done", 1 if and only if it is "error", "cancelled" or the end of the stream, 2 for "paused", 3 for an approval, 4 for the budget, 5 for the timer, each with its status and detail; nothing behind that signal is read, and before it come only phases that are none of those four |
| RunEvents.RunLoop.PushEvent | cmd/rysh/run_cmd.go:755-765 | never blocks: appends when there is room, otherwise drops just this event |
| RunEvents.RunLoop.Turn | cmd/rysh/run_cmd.go:392-423 | one turn of the consumer is one Receive or Fire of the schedule |
| RunEvents.FirstAcceptedDecides | cmd/rysh/run_cmd.go:392-423 | in every interleaving, whatever else is dropped: if the first deciding event was accepted only it or the timeout can decide the run, and if it was dropped it never does |
| RunEvents.AcceptedAndReceived | cmd/rysh/run_cmd.go:392-423 | an accepted first deciding event does decide, once the consumer has received past what was pending |
| RunEvents.DecidesIffRoom | cmd/rysh/run_cmd.go:755-765 | with the timer away and the consumer receiving, the first deciding event decides the run if and only if fewer than 256 events were pending at its push |
| RunEvents.SameAsUnbounded | cmd/rysh/run_cmd.go:755-765 | with fewer than 256 pending there, a run decided by an event is decided by the event that decides it with a queue that never fills |
| RunEvents.DoneCanBeLost | cmd/rysh/run_cmd.go:755-758 | counterexample to the comment that dropping is safe: behind 256 pending phases the "done" is lost, which an unbounded queue reports |
| RunEvents.DecisionIsFinal | cmd/rysh/run_cmd.go:392-423 | no later step changes a decision; the timer decides when nothing did before it, and nothing else times out |
| Budget.Collector.Add | cmd/rysh/run_result.go:149-161 | each int64 counter is the (wrapping) sum of its field over all records that arrived, and grows by just the record's own |
| Budget.Collector.OnUsage | cmd/rysh/run_result.go:149-173 | reports a breach on exactly the record whose arrival is the first to leave the totals over the ceiling, in tokens or in micro-dollars, and remembers it |
| Budget.WrapFits | cmd/rysh/run_result.go:155-160 | int64 arithmetic: what fits is itself, and what does not is congruent to it |
| Budget.TotalIsTheSplit | cmd/rysh/run_result.go:155-160 | the token total is in + out + cache-read + cache-write, for any records and with wrap-around |
| Budget.SumAnyOrder | cmd/rysh/run_result.go:155-160 | a total does not depend on arrival order |
| Budget.ReportsInPrefix | cmd/rysh/run_result.go:162-173 | whether an arrival reports is settled by the records up to it |
| Budget.PrefixSums | cmd/rysh/run_result.go:155-169 | for non-negative records no prefix exceeds the final total |
| Budget.ReportIffFinallyOver | cmd/rysh/run_result.go:149-173 | exactly one record reports if the final total exceeds the ceiling, and it is the first whose prefix does; none otherwise |
| Budget.VerdictAnyOrder | cmd/rysh/run_result.go:149-173 | totals and breach verdict are the same for every arrival order |
| Budget.ParseBudget | cmd/rysh/run_cmd.go:143-177 | the parser computes `BudgetOf` of the trimmed, lower-cased text, refusals included |
| Budget.ParseNormal | cmd/rysh/run_cmd.go:149-177 | the same for text already normalised: dollars before tokens |
| Budget.ParseTokens | cmd/rysh/run_cmd.go:165-176 | digits with an optional k or m, multiplied in int64 |
| Budget.CeilingFaithfulIffFits | cmd/rysh/run_cmd.go:165-176 | a count, bare or with k or m in either case, blanks around it, is accepted if and only if it is positive, and becomes that many tokens, thousands or millions if and only if the product fits int64 |
| Budget.DollarsEnforcedIff | cmd/rysh/run_cmd.go:158-164 | an amount behind "$" or before "usd" is accepted if and only if it is a positive number; it sets a ceiling if and only if it is at least a millionth of a dollar and its millionths fit int64, and then that many |
| Budget.DollarsOverflow | cmd/rysh/run_cmd.go:158-164 | ten million million dollars are accepted and set no ceiling |
| Budget.OverflowDisablesBudget | cmd/rysh/run_cmd.go:172-176 | an accepted budget that wraps to -1000 tokens and so enforces nothing |
| Baseline.CaseDir.PromoteBaseline | cmd/rysh/eval_cli.go:343-386 | every statement is a step of the protocol; short of a death the note is the one `Announced` for these failures, and it tells what recorded/ and .baseline-prev hold |
| Baseline.CaseDir.MoveIn | cmd/rysh/eval_cli.go:358-386 | from the Stat on: move aside, rename in, with each failure |
| Baseline.CaseDir.RenameIn | cmd/rysh/eval_cli.go:373-386 | the promoting rename, and the restore when it fails |
| Baseline.CaseDir.UpdateBaseline | cmd/rysh/eval_cli.go:232-320 | one case of a live eval: stage, run, grade, promote, clean up, all of it protocol steps. It passes if and only if the run completed, exited 0, met every assertion and, unless it was a replay, had the judge it asks for say pass; otherwise recorded/ stays; each note has the reason it names, and success the number of non-empty files promoted |
| Baseline.Grade | cmd/rysh/eval_cli.go:266-286 | assertions, exit code and judge in the order of the code come to that verdict |
| Baseline.AnnouncedFor | cmd/rysh/eval_cli.go:343-386 | why each note of a promotion is announced |
| Baseline.CaseDir.MoveAsideAndIn | cmd/rysh/eval_cli.go:365-386 | where recorded/ is there: it is moved aside first |
| Baseline.CaseDir.Record | cmd/rysh/eval_cli.go:245-257 | the run writes to its own staging directory only |
| Baseline.CaseDir.CleanUp | cmd/rysh/eval_cli.go:260-318 | removing the stage touches neither recorded/ nor .baseline-prev |
| Baseline.StagedRecordingSize | cmd/rysh/eval_cli.go:388-411 | counts the non-empty regular files, or fails when an entry cannot be examined |
| Baseline.GoldenSurvives | cmd/rysh/eval_cli.go:343-386 | over any number of runs, with any call failing and death at any step: a golden transcript once present is whole in recorded/, or in .baseline-prev while recorded/ is absent |
| Baseline.StagedAfterPass | cmd/rysh/eval_cli.go:266-317 | a promotion is only under way for a recording whose run had been graded a pass |
| Baseline.GoldenProvenance | cmd/rysh/eval_cli.go:232-386 | recorded/ only ever holds the initial transcript or the recording, with a non-empty file, of a run that exited 0, met every assertion and, unless it was a replay, was passed by the judge it asks for |
| Baseline.AbsentUntilPromoted | cmd/rysh/eval_cli.go:373-378 | an absent recorded/ stays absent until a new recording is promoted: nothing reads .baseline-prev back later |
| Baseline.RestoreCanFail | cmd/rysh/eval_cli.go:336-342 | counterexample to "the previous transcript is restored": a run that ends with it only in .baseline-prev |
| Baseline.PassingIsPromoted | cmd/rysh/eval_cli.go:232-386 | whatever is graded a pass can become the golden transcript |
| Baseline.ReplayPromotesUnjudged | cmd/rysh/eval_cli.go:272-286 | counterexample to "mutually exclusive": a replay that records promotes what the judge would refuse |
| Baseline.ReplayRecordsIff | cmd/rysh/eval_cli.go:92-109 | such a run is refused if and only if --live is missing |
| StdioServer.Server.EveryStateHolds | cmd/rysh/company_mcp.go:370-447 | in every interleaving of reader, calls and the write lock the pipe holds whole lines plus the part of one that the lock's holder still writes, and each line is answered at most once and rightly |
| StdioServer.Server.AllAnsweredOnceOnReturn | cmd/rysh/company_mcp.go:394-447 | when the server returns, each request with a non-null id and each unparseable line is answered exactly once with its own id (null) and code, no notification is, and the output is exactly those lines (sections 4.1 and 5 of JSON-RPC 2.0) |
| StdioServer.Server.WrittenLines | cmd/rysh/company_mcp.go:373-383 | cutting the output at line breaks gives back the encoded responses, one a line |
| StdioServer.Server.StepsRunOut | cmd/rysh/company_mcp.go:370-447 | every step leaves less to do: no run goes on for ever |
| StdioServer.Server.NeverStuck | cmd/rysh/company_mcp.go:370-447 | short of the return some step is always possible |
| StdioServer.Server.Returns | cmd/rysh/company_mcp.go:394-395 | every interleaving, cut anywhere, can be carried on to the return |
| McpGate.ResolvedNeverGuesses | cmd/rysh/mcp_serve.go:315-346 | a pane is found by id, or as the only one with that given name, or, when no pane has it as given name, as the only one with that title; a shared name is ambiguous, an unknown one not found, a blank one none |
| McpGate.SpecsAreTheEnabledTools | cmd/rysh/mcp_serve.go:144-199 | the listed tools are exactly those `call` does not refuse |
| McpGate.SessionTools.CallTool | cmd/rysh/mcp_serve.go:187-236 | a call adds to the log at most a gate question and a write. The question names the tool, the pane, poster, channel or place written to, and the very text a shell is to run; the write carries the call's own arguments, the mode "shell" by default; it succeeds if and only if arguments and session allow and, for a write tool, the write was made |
| McpGate.WriteIsCleared | cmd/rysh/mcp_serve.go:647-790 | field by field: what the gate was shown just before each of the four writes |
| McpGate.WriteCarriesArguments | cmd/rysh/mcp_serve.go:661-790 | field by field: the write is the one the tool is named for, with the call's arguments, into a pane its argument names |
| McpGate.AskedIff | cmd/rysh/mcp_serve.go:187-236 | the gate is asked if and only if the server allows writes, the tool is one and its arguments are complete; the write is made if and only if it then says OK |
| McpGate.SessionTools.CallWriteTool | cmd/rysh/mcp_serve.go:219-227 | a write tool does what its arguments intend, behind the gate, and nothing else |
| McpGate.SessionTools.Gate | cmd/rysh/mcp_serve.go:645-659 | asks once, and is OK only for an OK reply |
| McpGate.SessionTools.DoSendInput | cmd/rysh/mcp_serve.go:661-691 | a refused argument, pane or gate leaves no write |
| McpGate.SessionTools.DoBoardPost | cmd/rysh/mcp_serve.go:693-711 | the same for a board post |
| McpGate.SessionTools.DoChannelSend | cmd/rysh/mcp_serve.go:713-737 | the same for a channel message |
| McpGate.SessionTools.DoStartPane | cmd/rysh/mcp_serve.go:744-790 | the same for a started pane |
| McpGate.WritesAreGated | cmd/rysh/mcp_serve.go:647-790 | in every interleaving of any calls, a write follows an OK the same call got for exactly that tool, target and shell text; a read-only server neither asks nor writes |
| McpGate.AtMostOneWrite | cmd/rysh/mcp_serve.go:647-790 | each call writes at most once |
| McpGate.StartCommandIsOneLine | cmd/rysh/mcp_serve.go:739-762 | whatever start_pane is given, the command is one line without "##" |
| McpGate.StartCommandIff | cmd/rysh/mcp_serve.go:744-765 | there is a command for a shell, for claude and for an agent of a plain name, unless the prompt has a line break or "##" |
| McpGate.StartCommandSays | cmd/rysh/mcp_serve.go:750-762 | the prompt comes last, trimmed, and an empty one leaves no blank behind |
| RecordGuard.HealTellsTheTruth | internal/session/selfheal.go:19-49 | a heal happens exactly when the record does not tell of this live daemon, leaves nothing to heal, and is the daemon's own record but for provenance and, over its own record, the live clients and ports |
| RecordGuard.AliveIs | internal/session/selfheal.go:36-48 | of the clients just the live ones are kept, in order |
| RecordGuard.Daemon.EveryStateKeepsInv | cmd/rysh/main.go:781-800 | in every interleaving the mark is only made once the guard has exited |
| RecordGuard.Daemon.MarkIsNeverHealed | cmd/rysh/main.go:1160-1191 | no heal ever follows the "stopped" mark, and after it the guard goroutine is gone |
| RecordGuard.Daemon.MarkStands | cmd/rysh/main.go:781-792 | unless another process wrote later, the record on disk is the stopped one |
| RecordGuard.Daemon.OtherOrderRaces | cmd/rysh/main.go:794-800 | with the two defers the other way round a heal can follow the mark: the order is what matters |
| Wizard.Onboard.OnPong | cmd/rysh/onboard_cmd.go:553-563 | Update on a ping answer is the step of the state machine, and keeps its invariant |
| Wizard.Onboard.OnKey | cmd/rysh/onboard_cmd.go:565-573 | Update on a key likewise, cancel keys first |
| Wizard.Onboard.OnPickingKey | cmd/rysh/onboard_cmd.go:585-621 | the provider, model and key steps |
| Wizard.Onboard.OnCheckingKey | cmd/rysh/onboard_cmd.go:623-648 | the two validation steps |
| Wizard.Onboard.OnLateKey | cmd/rysh/onboard_cmd.go:649-684 | shell, layout and launch steps |
| Wizard.Onboard.StartTextStep | cmd/rysh/onboard_cmd.go:543-549 | switches step and prefill and nothing else |
| Wizard.Onboard.FinishProvider | cmd/rysh/onboard_cmd.go:719-736 | writes the block for the current provider, model and key, or fails |
| Wizard.Onboard.constructor | cmd/rysh/onboard_cmd.go:489-524 | a new wizard is in the invariant, with tabs and panes at least 1 |
| Wizard.NextKeepsInv | cmd/rysh/onboard_cmd.go:551-700 | every key and every ping answer keeps the invariant |
| Wizard.EveryReachableState | cmd/rysh/onboard_cmd.go:551-736 | at most one ping in flight; exactly one while validating, issued for the current provider, model and key; a shown result belongs to them; cursors in range; LaunchNow only after both blocks were written |
| Wizard.TakenAnswerIsCurrent | cmd/rysh/onboard_cmd.go:551-563 | an accepted answer never belongs to an earlier key, though pings carry no token |
| Wizard.AllTheWay | cmd/rysh/onboard_cmd.go:551-736 | lines typed and entered from the first step to the last: the provider picked, the model, key, shell and layout typed are what is checked, written and launched |
| Wizard.CancelEnds | cmd/rysh/onboard_cmd.go:565-572 | a cancel key ends the wizard from every step as failed, with nothing to launch and nothing more written |
| Wizard.ListKeys | cmd/rysh/onboard_cmd.go:586-592 | the lists move by one and stop at their ends; the first line of the last one launches |
| Wizard.PickedProvider | cmd/rysh/onboard_cmd.go:593-600 | the model offered is the configured one if the provider is, else the provider's own |
| Wizard.TypedLine | cmd/rysh/onboard_cmd.go:603-657 | what a typed model, key and shell come to, blank lines included |
| Wizard.TypedLayout | cmd/rysh/onboard_cmd.go:659-671 | a typed layout is written before launching, or the wizard fails |
| Wizard.AtTheAnswer | cmd/rysh/onboard_cmd.go:623-648 | at the answer: enter, skip, retry and back, and what each writes |
| Wizard.OtherKeysEdit | cmd/rysh/onboard_cmd.go:585-700 | any other key at most edits the line |
| Wizard.MoveCursor | cmd/rysh/onboard_cmd.go:528-541 | stays in range, and moves by the delta whenever that stays in range |
| Wizard.KeyRefersToItsName | cmd/rysh/onboard_cmd.go:105-118 | the first reference in the text the config gets is the recorded name; a literal that is kept apart is the whole input, and the config gets the provider's reference for it |
| Wizard.KeyIsAReferenceIff | cmd/rysh/onboard_cmd.go:95-118 | the config gets a reference and nothing else if and only if the input holds no reference or is just one |
| Wizard.MixedKeyGoesIntoConfig | cmd/rysh/onboard_cmd.go:114-116 | a secret typed in front of a reference goes into the config as it is |
| Wizard.ParseLayoutSpec | cmd/rysh/onboard_cmd.go:753-772 | fields that are not positive int64 numbers keep the current value |
| Wizard.LayoutPrefillRoundTrip | cmd/rysh/onboard_cmd.go:649-661 | accepting the prefilled "TABSxPANES" keeps the layout |
| Wizard.LayoutReads | cmd/rysh/onboard_cmd.go:753-772 | two counts are read with any of the five separators, one alone is the tabs, and none that is not positive is taken |
| Redaction.Rules.OnlyHitsChange | cmd/rysh/run_record.go:295-321 | the first pass hides each detected span, where it stands, behind its own mask and keeps the text between; the other two mask exactly the occurrences that start where the last ended or later, and show every other character unchanged, in order |
| Masking.CutOnlyHits | cmd/rysh/run_record.go:308-319 | a replacing pass is its input, piece by piece in place: a masked piece is an occurrence, any other is one character at which none starts |
| Masking.PathGone | cmd/rysh/run_record.go:308-313 | a path that overlaps the mask nowhere and starts with a character not in it is nowhere in a text whose occurrences of it were masked |
| Masking.ComesBackIffItCan | cmd/rysh/run_record.go:308-313 | some text shows the needle again after masking if and only if the needle can be read across the border of a mask: from inside one, or into one behind text in which nothing was masked earlier |
| Masking.ComesBackIffOverlaps | cmd/rysh/run_record.go:308-313 | for a path whose first character is not in the mask, that is whether a proper end of it agrees with the mask |
| Masking.CountedAreMasked | cmd/rysh/run_record.go:308-319 | the separate count equals the number of masked pieces, replacing gives what the pieces show, and where nothing is counted the text stays |
| Masking.NameBackIffReadsAsMask | cmd/rysh/run_record.go:314-319 | a name of word characters at both ends without "$" can be shown again as a word if and only if it begins as the mask reads |
| Masking.HitIsAlone | cmd/rysh/run_record.go:288-291 | a whole-word match has no letter, digit or underscore beside it |
| Redaction.Rules.HomeGone | cmd/rysh/run_record.go:295-321 | no redacted string contains an absolute home path that overlaps none of the masks in use |
| Redaction.Rules.HomePassIff | cmd/rysh/run_record.go:308-313 | the home pass rids every text of the home path if and only if the path cannot come back; for an absolute one if and only if no proper end of it agrees with "$HOME" |
| Redaction.Rules.HomeGoneIffSafe | cmd/rysh/run_record.go:295-321 | for a redactor that detects nothing and masks no user name, every redacted string is free of an absolute home if and only if it does not overlap |
| Redaction.Rules.HomeShownIff | cmd/rysh/run_record.go:295-321 | for one that masks a plain user name too, some redacted string shows the absolute home if and only if no such name stands in it as a word, and it overlaps the home mask or can be read into the user mask |
| TwoMasks.ShownBehindBothIff | cmd/rysh/run_record.go:308-319 | the same for the two replacements by themselves |
| Redaction.NoDollarNoOverlap | cmd/rysh/run_record.go:308-319 | a path without "$" overlaps no mask |
| Redaction.Rules.UserGone | cmd/rysh/run_record.go:295-321 | the user name is in no redacted string as a word, unless it begins as the mask reads |
| Redaction.Rules.UserPassIff | cmd/rysh/run_record.go:314-319 | and that condition on the name is exact |
| Redaction.HomesThatComeBack | cmd/rysh/run_record.go:295-321 | redactors whose home is back in the redacted text: out of the home mask, out of the user mask, and for want of a leading slash; and a home with "$" that stays away |
| Redaction.HomeGoneFromDoc | cmd/rysh/run_record.go:323-341 | no string and no key of the walked document contains such a home path |
| Redaction.ShapeKept | cmd/rysh/run_record.go:323-341 | scalars are unchanged, an array keeps length and order, and an object of which no two keys redact alike keeps its entries in order, key and value cleaned |
| Redaction.EntriesKeptIffNoCollision | cmd/rysh/run_record.go:332-337 | an object keeps as many entries as it had if and only if no two keys redact to the same text; its keys are the redacted ones |
| Redaction.SecretKeysCollide | cmd/rysh/run_record.go:332-337 | two keys that are secrets of one kind become one entry |
| Redaction.Redactor.Str | cmd/rysh/run_record.go:295-321 | computes the redacted string by counting and replacing; no spelling of the home, trailing slashes or not, is left in it when the home is safe; each kind is counted once a span, homes and names once a masked piece |
| Redaction.Redactor.HideSecrets | cmd/rysh/run_record.go:296-307 | computes the first pass, and counts each kind as often as it was detected |
| Redaction.Redactor.HideSpans | cmd/rysh/run_record.go:297-305 | the loop over spans: the text up to the last one |
| Redaction.Redactor.Walk | cmd/rysh/run_record.go:323-341 | computes the redacted document, and the counters grow by exactly the replacements made in it |
| Redaction.Redactor.WalkItems | cmd/rysh/run_record.go:327-331 | an array is rewritten slot by slot in place |
| Redaction.Redactor.WalkMembers | cmd/rysh/run_record.go:332-337 | an object is rebuilt under redacted keys |
| Redaction.Redactor.WalkMember | cmd/rysh/run_record.go:334-336 | one entry: its key and its value are redacted |
| Redaction.DocTallyIsSum | cmd/rysh/run_record.go:323-341 | the replacements counted in a document are those in its strings and keys, and no others |
| Redaction.Redactor.constructor | cmd/rysh/run_record.go:282-293 | the home is the given one without its trailing slashes, none if only slashes or one character are left; an absolute one without "$" and not just slashes is safe; user names below three characters are not masked; counters start at zero |
| GitStatus.GitStatusSnapshot | cmd/rysh/run_result.go:217-237 | the index loop computes `Parse` of the text |
| GitStatus.ParseOfPrint | cmd/rysh/run_result.go:217-237 | parsing the text printed for any list of entries gives back exactly the map they describe, when origins come with R or C in the first letter |
| GitStatus.DescribeIsLastWord | cmd/rysh/run_result.go:221-236 | what the entries say of a path is the status of the last that names it, as path or origin |
| GitStatus.OneEntryParsesIffOriginInIndex | cmd/rysh/run_result.go:226-234 | for one entry that condition is exact: an origin printed for a rename in the work tree is read as an entry of its own |
| GitStatus.ParsesIffOriginsInIndex | cmd/rysh/run_result.go:217-237 | for any list of entries whose origins outside the index nothing else names, the output is read back if and only if there is none of them |
| GitStatus.WorkTreeMoveMisread | cmd/rysh/run_result.go:226-234 | a file moved in the work tree whose origin is read as another path with its first two letters as status |
| GitStatus.ParsedStatuses | cmd/rysh/run_result.go:221-236 | every parsed status has two letters |
| GitStatus.ChangedPaths | cmd/rysh/run_result.go:239-263 | sorted, without duplicates, and exactly the paths the two loops collect |
| GitStatus.CollectedIsChangedIff | cmd/rysh/run_result.go:242-253 | those are the paths whose status differs if and only if no new path has an empty status |
| GitStatus.ChangesOfSnapshots | cmd/rysh/run_result.go:239-263 | for two parsed snapshots: the sorted, duplicate-free list of the paths that are in one only or have another status, and the same list with the snapshots swapped |
| GitStatus.AscendingUnique | cmd/rysh/run_result.go:257-262 | a sorted duplicate-free list is determined by its elements |
| GitStatus.BelowIff | cmd/rysh/run_result.go:262 | the order is by the first character in which two paths differ, an end before any character |
| GitStatus.SortStrings | cmd/rysh/run_result.go:257-262 | sorts a set of paths |
| SkillFile.SplitSkillFrontmatter | cmd/rysh/doctor_cmd.go:312-323 | the scan returns the text between the first line and the first later fence, and what follows |
| SkillFile.SplitOfBuild | cmd/rysh/skill_scaffold.go:331-345 | splitting a generated file returns exactly the frontmatter and the trimmed body, or the default one, plus newline, for every body, if and only if no frontmatter line trims to "---" |
| SkillFile.NoFrameIff | cmd/rysh/doctor_cmd.go:312-323 | there is no frontmatter if and only if the first line is no fence or no later one is |
| SkillFile.FenceInValue | cmd/rysh/doctor_cmd.go:309-323 | a value with the line "---", indented as the encoder does: the frontmatter ends before it, and the body begins with what is left |
| BoardArgs.ExtractStringFlag | cmd/rysh/main.go:1959-1969 | takes the first occurrence that has a value, and leaves the rest in order |
| BoardArgs.ExtractBoolFlag | cmd/rysh/main.go:1973-1988 | removes every occurrence and says whether there was one |
| BoardArgs.ExtractFromPairs | cmd/rysh/main.go:1959-1969 | among flags and words followed by anything, extraction finds the flag wherever it stands and reads past them only when none is the flag |
| BoardArgs.ParseBoardSendArgs | cmd/rysh/board_send_cmd.go:63-130 | the parser computes `ParseRest` of `TakeCommon`, errors included |
| BoardArgs.ParsePoster | cmd/rysh/board_send_cmd.go:78-83 | --as, then the split at the separator |
| BoardArgs.ParseSend | cmd/rysh/board_send_cmd.go:86-106 | the flags of send |
| BoardArgs.SendAcceptedIff | cmd/rysh/board_send_cmd.go:67-106 | for flags in any order, with a body that arrives or without "--": a send is accepted if and only if it names at most one board, a valid one, has a recipient, a valid id if any, no note, no stray word, and text or a file; and then every field is the value given |
| BoardArgs.SendRefusedFor | cmd/rysh/board_send_cmd.go:71-106 | which refusal a send gets: the first that applies |
| BoardArgs.ParseAck | cmd/rysh/board_send_cmd.go:108-119 | ack takes one id |
| BoardArgs.AckAcceptedIff | cmd/rysh/board_send_cmd.go:108-119 | for flags and words in any places, with or without "--": an ack is accepted if and only if the words left by the flags, those behind "--" among them, are one valid id, and at most one board is named, a valid one; and then id and note are those given |
| BoardArgs.InboxAcceptedIff | cmd/rysh/board_send_cmd.go:121-127 | likewise: an inbox is accepted if and only if its words are its two switches, in any order, place and number, nothing is behind "--", and at most one board is named, a valid one; and then each switch is on if it was given |
| BoardArgs.BareIsEmptyBody | cmd/rysh/board_send_cmd.go:80-83 | a separator with nothing behind it may be left out |
| BoardArgs.BodyArrivesIffSafe | cmd/rysh/board_send_cmd.go:67-83 | the words after "--" arrive unchanged if and only if each flag all three commands take is given before "--" or cannot be read out of the body; then every common flag has its own value |
| BoardArgs.BodyCanBeEaten | cmd/rysh/board_send_cmd.go:67-83 | a message that loses its last two words, which name the poster instead |
| BoardArgs.OrderDoesNotMatter | cmd/rysh/board_send_cmd.go:60-130 | any permutation of distinct recognised flags gives the same result, error or not |
| BoardArgs.PlacesDoNotMatter | cmd/rysh/board_send_cmd.go:60-130 | with words among the flags, in whatever places: the same call is accepted, with the same result |
| Escaping.XmlRoundTrip | cmd/rysh/assistant_profile.go:284-289 | reading character data with the five references of section 4.6 of XML 1.0 gives back every string and stops where it ended |
| Escaping.XmlEscapeIs | cmd/rysh/assistant_profile.go:284-289 | the five characters become their references, every other stays |
| Escaping.ArgumentsRoundTrip | cmd/rysh/service_cmd.go:97-102 | the ProgramArguments array read back is the argument list it was printed from, whatever is in it |
| Escaping.SystemdQuoteIs | cmd/rysh/service_cmd.go:116-121 | a backslash before backslash and quote, "%" and "$" doubled, every other character as it is, between quotes |
| Escaping.QuoteRoundTrip | cmd/rysh/service_cmd.go:116-121 | where variables are substituted, un-escaping gives back every string, and the first quote not escaped is the closing one |
| Escaping.PathRoundTrip | cmd/rysh/service_cmd.go:116-121 | where none is, as in the path of the program, each "$" stays doubled |
| Escaping.Unclosed | cmd/rysh/service_cmd.go:116-121 | a quoted word cut short is never complete |
| Escaping.WordsRoundTrip | cmd/rysh/service_cmd.go:132-139 | quoted arguments are read back one by one |
| Escaping.CommandRoundTrip | cmd/rysh/service_cmd.go:132-139 | a quoted command is read back: its arguments as they were, its path with "$" doubled |
| UnitFile.ReadIsUnbroken | cmd/rysh/service_cmd.go:123-141 | whatever a unit file says, no program path and no directory read from it has a line end |
| UnitFile.CommandIffPlain | cmd/rysh/service_cmd.go:132-133 | the quoted command is taken as it was given, arguments and all, if and only if its path is plain: absolute, no directory, without control characters, quotes, backslashes and "$" |
| UnitFile.UnitRunsIffPlain | cmd/rysh/service_cmd.go:123-141 | read by sections, comments, continued lines, assignments and resets, the unit has systemd run one command, the program with its arguments, in its directory, if and only if the path is plain and the directory is absolute, has no line end, and ends in no blank or odd backslash |
| UnitFile.PlainIff | cmd/rysh/service_cmd.go:116-141 | those conditions on path and directory, character by character |
| UnitFile.UnitLines | cmd/rysh/service_cmd.go:125-141 | the unit, line by line |
| UnitFile.PathsThatDoNotRun | cmd/rysh/service_cmd.go:116-121 | six paths that are quoted and not run: with a "$", a line feed, a tab, an apostrophe, a backslash, a prefix |
| UnitFile.DirsThatAreNotRead | cmd/rysh/service_cmd.go:133-141 | three directories that are assigned and not read back: with a line feed, a blank and a backslash at the end |
| UnitFile.DirectoryTakesCommandBack | cmd/rysh/service_cmd.go:133-141 | a directory whose second line is "ExecStart=" leaves the unit without a command |
| Checksum.StampChecksum | cmd/registry-index/main.go:232-242 | overwrites the first checksum line in place, or appends one |
| Checksum.LastStampIsRead | cmd/registry-index/main.go:231-242 | after a stamp the first line that trims to "checksum:" and more is the new one |
| Checksum.LastStampWinsIffOneLine | cmd/registry-index/main.go:231-242 | stamping a and then b equals stamping b alone if and only if a has no line break |
| Checksum.OtherLinesStay | cmd/registry-index/main.go:234-241 | the first checksum line, where there is one, is the only line that changes; otherwise the new line is appended and all lines but empty ones at the end are kept |
| Debounce.Watcher.Run | cmd/rysh/prompt_watcher.go:43-86 | the goroutine, over any inputs its select takes, ends in the state of the timed machine |
| Debounce.Watcher.Arm | cmd/rysh/prompt_watcher.go:47-54 | creates or resets the timer to now plus the debounce and listens to it |
| Debounce.PromptFilesOnly | cmd/rysh/prompt_watcher.go:66-70 | the extension filter takes exactly the names ending in ".md" |
| Debounce.RelevantIff | cmd/rysh/prompt_watcher.go:66-73 | relevant are writes, creations, removals and renames of those, and nothing else |
| Debounce.ArmedIffEventSinceReload | cmd/rysh/prompt_watcher.go:47-74 | the timer is armed if and only if a relevant event came since the last reload, with the last one plus the debounce as its deadline |
| Debounce.ReloadsFollowQuiet | cmd/rysh/prompt_watcher.go:80-83 | each reload follows a relevant event, the last before it, by at least the debounce |
| Debounce.AtMostOneReloadABurst | cmd/rysh/prompt_watcher.go:14-86 | however late ticks are taken: reloads never outnumber bursts, nor bursts relevant events |
| Debounce.OneReloadASettledBurst | cmd/rysh/prompt_watcher.go:18-86 | with ticks taken when due there is exactly one reload a burst if and only if the last has settled |
| Debounce.EndIsLast | cmd/rysh/prompt_watcher.go:56-79 | the loop ends with the stop or the end of either channel, and takes nothing after it |
| WaitLoop.WaitLoop | cmd/rysh/wait_cmd.go:160-199 | at most floor(timeout/interval) + 2 looks and `timeout` of sleep; "reached" if and only if the last look is in need, idle and not in need, exited, or anything, as --until asks, with exit 0; "gone" with 1, "timeout" with 5 only once the time has passed; the state is that of the last look, and none before it decided |
| WaitLoop.Latch | cmd/rysh/wait_cmd.go:166-171 | the latch is on exactly when some look so far showed a program |
| WaitLoop.SatisfiedIff | cmd/rysh/wait_cmd.go:145-158 | which look satisfies which --until |
| WaitLoop.ExitedIff | cmd/rysh/wait_cmd.go:129-141 | "exited" if and only if the pane is gone, or a program was seen earlier and this look shows none |
| WaitLoop.GoneOnlyWhenSaidSo | cmd/rysh/wait_cmd.go:201-222 | only "pane not found" makes a pane gone; what cannot be read is never idle and never needs anyone |
| WaitLoop.UnreadableIsUnknownIffNothingSeen | cmd/rysh/wait_cmd.go:129-141 | an unreadable look reads as unknown if and only if no program was seen before; after one it reads as exited and satisfies --until exited |
| WaitLoop.LostReadEndsTheWait | cmd/rysh/wait_cmd.go:129-141 | a wait for "exited" that one lost read ends while the program runs on |

## Left out

- Strings are sequences of characters, where Go has bytes: lengths (such as the three bytes of a user name or the four of a status field) and orders are those of ASCII text.
- Counts, line numbers, timestamps and durations are unbounded integers; int64 wrap-around is modelled where the code can meet it, in Budget.
- Budget.DollarsEnforcedIff: is about the conversion of amd64, since Go leaves the value of a conversion out of range to the machine.
- Budget.ParseBudget: takes strconv.ParseFloat as a parameter over the reals, so rounding, NaN and infinities are not modelled; a dollar amount beyond int64 becomes the smallest int64, as on amd64.
- Budget.ReportIffFinallyOver: is stated for non-negative records whose totals fit int64; Budget.Collector.OnUsage covers all records.
- Baseline.CaseDir.UpdateBaseline: models one case directory; the counters and TAP lines of runEvalLive over several cases, and stages that killed runs leave behind, are not modelled.
- Baseline.StagedRecordingSize: takes the directory listing as given; a ReadDir that fails is a parameter of the promotion.
- StdioServer.Server.AllAnsweredOnceOnReturn: starts from the lines the scanner delivers (a line beyond 8 MB ends the input) and treats json.Marshal of a response as never failing; call timeouts are part of what a tool may answer.
- McpGate.SessionTools.CallTool: the read tools have no effect on the session and appear only as succeeding or failing; listPanes' bounded fan-out, screen classification and answer formats are not modelled.
- McpGate.ResolvedNeverGuesses: takes the panes of all tabs as one list.
- RecordGuard.Daemon.MarkIsNeverHealed: one write of the record file is one step; locking inside the registry is not modelled.
- Wizard.EveryReachableState: a failed ping has a non-empty error text, as every error the provider checks make has; the input field's own editing is a parameter, and notes, placeholders, echo mode and View are left out.
- Redaction.EntriesKeptIffNoCollision: entries are visited in the order listed, where Go's map order is arbitrary; which of two colliding entries stays is therefore not what the code promises.
- Redaction.Redactor.Walk: takes the detected spans as given, sorted and disjoint; arrays and objects are rewritten values, not shared ones.
- GitStatus.ParseOfPrint: asks entries to have a non-empty path and origin without NUL, as git prints them.
- SkillFile.SplitOfBuild: takes the YAML encoder's text as given, ending with a newline.
- BoardArgs.ParseBoardSendArgs: error texts are replaced by error cases, and the id checks of internal/msg are parameters.
- BoardArgs.OrderDoesNotMatter: is about flags alone, as the words an error repeats come in the order given; with words among them BoardArgs.PlacesDoNotMatter is about what is accepted. No word or value reads as a flag or as the separator.
- Escaping.XmlRoundTrip: reads the references and the end of the data; characters XML forbids and the normalisation of carriage returns are not modelled.
- UnitFile.UnitRunsIffPlain: expects a session name as serviceNameRe has it. The reader follows systemd.syntax(7), systemd.service(5) and systemd.exec(5) as far as the unit's two paths go: lines, comments, continuation, sections, assignments and their reset, quoting, specifiers and variables, the special prefixes, and which paths are taken. Checks of UTF-8 and of lengths, escapes such as "\x", several commands on a line, and the simplification of repeated slashes and of "." are not modelled.
- Redaction.Rules.HomeShownIff: is about names of word characters at both ends and without "$" that do not begin as the mask reads; for other names Redaction.Rules.HomeGone is the one direction.
- Redaction.Rules.UserGone: is about names of word characters at both ends and without "$", as login names are; the whole-word match of others depends on what stands beside them.
- Debounce.Watcher.Run: relies on timers that deliver no tick of an earlier setting after Reset, as since Go 1.23; onReload takes no time of its own.
- WaitLoop.WaitLoop: expects a positive interval and a timeout that is not negative, which parseWaitArgs ensures, and a clock that does not go back.
- The company snapshot cache, extractFieldSecrets, the registry index loop, the audit diff and the share bundle's files: one-branch code or plumbing that would only add easy members.
- NATS, actors, HTTP, git and shell processes, terminal rendering, YAML, JSON, regexps and the secret detectors are not part of this model.
