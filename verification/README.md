# Verified models of the aivo agent core

aivo's coding agent keeps a long conversation inside a model's context window, edits files from
V4A patches, talks to MCP servers over HTTP and stdio, runs background jobs, and cleans up what
models send it. This project models those parts in Dafny and proves what they keep. Code that
changes its state in place is a class or a method with loops, proved against a specification
function; the theorems are about those functions, over every input and every run.

| file | models |
|---|---|
| `Text.dfy` | Rust's string operations: trimming, `lines`, `split`, UTF-8 length, decimals |
| `Messages.dfy`, `Json.dfy` | messages, their JSON text and its exact length, the token estimate, halving of long strings |
| `History.dfy` | edits compaction makes to a chat and its `/rewind` checkpoints, and runs of them |
| `StaleResults.dfy` | clearing of old tool output and the estimate of what it saves |
| `Pinned.dfy` | the pinned working set inside a summary fold |
| `Engine.dfy` | the agent's compaction methods |
| `PatchFormat.dfy`, `PatchPrint.dfy` | the V4A grammar, its parser, and a printer that is its inverse |
| `PatchApply.dfy`, `PatchFiles.dfy` | hunk placement and the two-phase apply on a file map |
| `Sse.dfy`, `SsePrint.dfy` | MCP event streams: the reader, and what it reads of a stream written to the standard |
| `StdioLines.dfy`, `ToolTable.dfy` | MCP: stdio lines, advertised tool names |
| `Jobs.dfy`, `JobTable.dfy`, `JobRuns.dfy` | the job table, its critical sections, and all their interleavings |
| `ToolRepair.dfy`, `ToolMarkup.dfy` | removal of tool calls leaked as markup, and what it leaves of well-nested markup |
| `LspFraming.dfy` | `Content-Length` frames of the Language Server Protocol 3.17 base protocol |
| `Notes.dfy`, `Aliases.dfy`, `FailureGuard.dfy` | note merging, alias chains, repeated tool failures |

## How the parts are modelled

**Compaction.** A message is its role, content, tool calls, `tool_call_id` and the texts of any
other fields. Its JSON length is computed exactly, character by character; `Json.dfy` writes the
text out separately and proves the length to be that of the text, so the estimate is the real one. Every engine method returns a ghost trace of elementary edits (clear, fold, drop,
shorten); the theorems in `History.dfy` hold for every run of such edits and so for every sequence
of engine calls. The model's summary is an arbitrary string.

**Jobs.** `JobTable.dfy` has one method per critical section of the lock, so a kill is several
methods with anything in between. `JobRuns.dfy` is the state machine over those sections, process
exits, failed spawns and the clock, with any number of kills under way at once.

**Streams.** The SSE reader, the stdio reader and the LSP reader are loops over what has arrived.
They are compared with one-pass readings of the whole byte string, and with what was written.
JSON parsing is an arbitrary function. So is UTF-8 decoding, except that where a written stream is
read back it must decode UTF-8 as the text it encodes (for LSP headers: ASCII as itself).

## What the proofs show about the code

These are places where the code does not do quite what its comments or structure suggest. Each is
a lemma with the exact condition.

- Clearing a tool result is described as reclaiming context, and savings as the bytes dropped. A
  result over 1000 bytes that is hardly more than one saved-report line grows instead, and is
  counted as saving nothing: in bytes, when all around that line takes fewer than 47 bytes of JSON
  (`StaleResults.GrowsInBytesIff`, `StaleResults.LonePointerLineGrows`). Its saving is covered by
  the real drop in the estimate exactly when that does not add a token
  (`StaleResults.SavingIsCoveredIff`), and a history with such a result can be left over budget by
  the cheap pass (`StaleResults.CheapPassCanFallShort`).
- The defensive branch of `apply_compaction` rebases checkpoints correctly except at cut 1 without
  a user message there, where the inserted summary pushes every message up and checkpoints stay
  (`History.FoldKeepsDistanceIff`). No caller reaches it.
- An update whose last line is blank loses that line when the file did not end in a newline
  (`PatchApply.AssembledHasItsLinesIff`; a one-hunk patch that does it: `PatchApply.BlankLastLineIsLost`).
- Updating a file rewrites all of its line ends. Lines that no hunk changes give the same text
  back exactly when all line ends of the file are alike and it is not a single line end and nothing
  else, which would become empty (`PatchApply.UntouchedTextIsSameIff`).
- `apply` says that a validation error leaves the workspace untouched. Validation does not compare
  changes with each other. A patch that passes it fails halfway exactly when two of its changes
  remove the same file and none between them writes it (`PatchFiles.RunFailsIff`,
  `PatchFiles.DeletingTwiceFails`).
- The size limit on a stdio line is held only against buffers without a newline. Read through a
  buffer of `cap` bytes, a line may pass the limit by fewer than `cap` bytes, and then how it
  arrives decides whether it is accepted; beyond that it is always refused
  (`StdioLines.AcceptedIsBounded`, `StdioLines.OverlongLineFate`).
- Starting a job promises a notice when it finishes. A finish nobody was told of is lost for good
  when a later spawn finds 32 later jobs finished and no kill of it is still to report
  (`JobRuns.SpawnLosesFinishIff`, `JobRuns.LostForGood`); 34 spawns without a drain get there
  (`JobRuns.FinishCanBeLost`).
- Notes are said to persist verbatim. A note without an id can vanish although there is room: it
  adopts the id of a later duplicate, and that id is then revised (`Notes.NoteWithoutIdCanBeRevisedAway`).

## Model

| member | source | states |
|---|---|---|
| Engine.AgentEngine.EnforceBudget | src/agent/compaction.rs:284-335 | terminates; on exit the estimate fits or no user message lies past 1 and no string after message 0 exceeds 256 characters; every edit was made while over budget, turns were dropped at most once and first, and the "did not shrink" break is never taken |
| Engine.AgentEngine.FindDrop | src/agent/compaction.rs:285-292 | a drop is made only at the latest user turn, leaves one turn, and is never followed by another |
| Engine.AgentEngine.ShrinkStrings | src/agent/compaction.rs:295-334 | always halves a largest string over 256 characters until the estimate fits or there is none |
| Messages.HalvingShrinks | src/agent/request.rs:58-64 | for every string over 256 characters, half of it plus the marker is shorter in characters and in bytes |
| Messages.ShorteningShrinks | src/agent/compaction.rs:323-333 | each halving lowers the total length of the strings in play: the loop's measure |
| Messages.ShorteningKeepsHalf | src/agent/compaction.rs:323-333 | halving keeps the first half of the string it picks and every other string as it was |
| Messages.LargestSlot | src/agent/compaction.rs:297-322 | the pick is a longest content or argument string over 256 characters, and there is none exactly when all are within 256 |
| Messages.EstimateConcat | src/agent/tokens.rs:64-87 | the estimate of a history is the sum over its parts |
| Json.SerializedLenIsTextLen | src/agent/tokens.rs:86 | for every message the computed length is the length in bytes of its JSON text, defined apart from it |
| Json.EstimateIsQuarterOfText | src/agent/tokens.rs:64-87 | without images, the estimate is a quarter of the bytes of the message's compact JSON text |
| Json.ImagesAreFlat | src/agent/tokens.rs:64-87 | with images: 1500 for each, whatever its text, a quarter of each other part, and four tokens |
| Json.StringRoundTrip | src/agent/tokens.rs:64-87 | a JSON reader gets every quoted string back, whatever follows it |
| Json.MessageHoldsItsStrings | src/agent/tokens.rs:64-87 | the text of a message holds its string content, quoted, and the text of every tool call |
| Json.CallHoldsItsStrings | src/agent/tokens.rs:64-87 | the text of a tool call holds its id, its name and its arguments, each quoted |
| Engine.AgentEngine.FindCut | src/agent/compaction.rs:481-494 | the backward scan finds the latest user turn whose tail holds the tokens to keep, else the earliest user turn, else the end |
| History.CutIsUnique | src/agent/compaction.rs:481-494 | that description has one answer |
| Engine.AgentEngine.PickCut | src/agent/compaction.rs:121-124 | the cut of the recent window, or, when nothing lies before that, the latest user turn; there is one such cut |
| Engine.AgentEngine.ClearStaleToolResults | src/agent/compaction.rs:244-269 | exactly the bulky tool results below the cut are replaced; a range outside the history changes nothing |
| StaleResults.OnlyBulkyResultsAreCleared | src/agent/compaction.rs:246-267 | tool results of over 1000 bytes below the cut become the stub, with the last saved-report line behind it if there is one; nothing else changes |
| History.NoneStartsLater | src/agent/compaction.rs:432-440 | the saved-report line kept is the last one of the result |
| StaleResults.ClearingIsIdempotent | src/agent/compaction.rs:242-269 | clearing twice is clearing once, for all histories, and every result keeps its last saved-report line |
| StaleResults.StaleSavingsAreCovered | src/agent/compaction.rs:226-240 | over a whole history the savings never exceed the real drop in the estimate, unless some result below the cut grows |
| StaleResults.SavingIsCoveredIff | src/agent/compaction.rs:226-240 | per result: covered by the real drop exactly when what surrounds its saved-report line is not so little that the stub costs another token; always for a result no shorter than what is retained of it |
| StaleResults.GrowsInBytesIff | src/agent/compaction.rs:256-267 | a bulky result gets longer exactly when it has a saved-report line and less than 47 JSON bytes around it |
| StaleResults.CheapPassCanFallShort | src/agent/compaction.rs:126-133 | for every long plain result next to a lone saved-report line, clearing leaves more than the estimate less the savings |
| StaleResults.LongResultsShrink | src/agent/compaction.rs:263-266 | a long enough result loses at least as many JSON bytes as are counted as saved |
| StaleResults.LonePointerLineGrows | src/agent/compaction.rs:258-266 | every result that is one long saved-report line grows by the stub and an escaped newline |
| Engine.AgentEngine.RebaseCheckpoints | src/agent/compaction.rs:421-430 | the in-place filter drops exactly the checkpoints below the cut and shifts the rest; the subtraction never underflows |
| Engine.AgentEngine.ApplyCompaction | src/agent/compaction.rs:386-416 | the fold replaces everything between the system prompt and the cut, in front of the kept turn's own text, and rebases the checkpoints |
| History.FoldKeepsUserText | src/agent/compaction.rs:395-405 | the turn folded into is the summary, a blank line and the user's own text; other fields stay; content that is no string gives way to the summary |
| History.FoldKeepsDistanceIff | src/agent/compaction.rs:408-415 | the fold's rebasing names the same messages exactly when the cut is past 1 or lands on a user message |
| History.DroppingTurnsStaysSendable | src/agent/compaction.rs:290-291 | removing whole turns keeps results paired with calls and user messages apart |
| History.StepStaysSendable | src/agent/compaction.rs:111-113 | so does every clear, fold, drop and halving the engine can make |
| History.RunStaysSendable | src/agent/compaction.rs:281-283 | pairing and alternation hold in every history of every run |
| History.RunMoves | src/agent/compaction.rs:418-430 | over any run the rest of the history moves as one block, edited only by folds, clears and halvings; message 0 is untouched, the latest user turn stays, and exactly the messages in front of the block are gone |
| History.CheckpointsFollowTheirMessages | src/agent/compaction.rs:418-430 | over any run exactly the checkpoints of removed messages are gone, a surviving one names the message it named before, order and range are kept; the removed range has the length the history lost, or is all of it when a history without a user turn is folded into one |
| Engine.RunStaysHealthy | src/agent/compaction.rs:281-283 | a run from a sendable history with checkpoints in range ends in one |
| Engine.AgentEngine.ForceFitBudget | src/agent/compaction.rs:95-109 | the steps are a clear up to the picked cut, a fold of the marker when the cut is past 1 at a user turn, then only trims while over budget; the history then fits the calibrated budget or cannot be cut further, and stays sendable |
| Engine.AgentEngine.MaybeCompact | src/agent/compaction.rs:114-140 | nothing happens within budget; otherwise, at the picked cut, either one clear, exactly when the savings are positive and suffice, or a fold of the reply's summary (the marker without a usable one) when the cut is past 1, then only trims; tokens and running summary are what that reply gives; the history then fits or cannot be cut further, unless the clear met a result that grows, and it stays sendable |
| Engine.AgentEngine.SummarizeRange | src/agent/compaction.rs:144-179 | one fold of the reply, or of the marker when the reply failed or is blank; only a usable reply becomes the running summary; returns the tokens a reply used |
| Engine.AgentEngine.FoldTextHoldsAll | src/agent/compaction.rs:272-279 | what is folded in starts with the heading and the summary and ends with the pinned working set; the marker keeps the running summary |
| Engine.AgentEngine.CompactNow | src/agent/compaction.rs:193-205 | whatever the budget: one fold at the cut when that is past 1, else one clear up to it; tokens and running summary as the reply gives |
| Engine.AgentEngine.CompactionBudget | src/agent/compaction.rs:47-62 | an estimate is within the budget exactly when the calibrated size fits the window less the reserve |
| Engine.AgentEngine.UpdateCalibration | src/agent/compaction.rs:66-77 | stays in [1, 2.5]; rises at once to a higher ratio, else moves a fifth of the way toward it and not past it |
| Engine.CalibrationCoversMeasured | src/agent/tokens.rs:29-31 | the ratio times the estimate is the measured size, but for the bounds 1 and 2.5 |
| Engine.AgentEngine.RecalibrateFromOverflow | src/agent/compaction.rs:80-91 | never lowers the calibration; covers the size the provider cited, or rises by a fifth up to the ceiling |
| Pinned.RenderPinnedBlock | src/agent/compaction.rs:363-381 | the loop stops at the fewest trims that fit, files before notes, oldest first; only a plan too big by itself stays over the ceiling |
| Pinned.PlanIsKeptWhole | src/agent/compaction.rs:361-381 | the block fits its ceiling or is the plan alone, and the plan stands at its front in full |
| Pinned.FirstFit | src/agent/compaction.rs:367-380 | no smaller number of trims fits |
| Pinned.ComposePinned | src/agent/compaction.rs:444-477 | the loops produce the three sections in order, empty ones left out |
| Pinned.NotesArePinned | src/agent/compaction.rs:453-466 | every note given stands in the block with its text in full |
| PatchFormat.Parse | src/agent/apply_patch.rs:48-137 | the parser's loops accept and reject exactly what the grammar does, with the same errors |
| PatchFormat.BodyEnd | src/agent/apply_patch.rs:77-80 | a body ends at the first marker line, and not before |
| PatchPrint.PrintParseRoundTrip | src/agent/apply_patch.rs:46-148 | printing a list of changes and parsing the text gives the list back, with LF or CRLF line ends, any header behind `@@`, blank context bare or not, whatever other lines surround the envelope |
| PatchPrint.ParsePrinted | src/agent/apply_patch.rs:53-63 | also when hunk lines look like the Begin and End markers |
| PatchApply.FindContext | src/agent/apply_patch.rs:151-173 | the three nested passes find what the search specification says |
| PatchApply.LineMatchesIff | src/agent/apply_patch.rs:158-162 | lines match when they are the same, the same up to whitespace behind, or the same up to whitespace around |
| PatchApply.FoundContextIsBest | src/agent/apply_patch.rs:150-173 | the search fails exactly when the block matches nowhere from the start on, and else returns the first match of the strictest level that has one |
| PatchApply.ApplySections | src/agent/apply_patch.rs:181-204 | the loop over hunks, with every index in bounds, produces the specified output or names the block not found |
| PatchApply.OutputIsRebuilt | src/agent/apply_patch.rs:177-204 | success means each hunk stands at its best place behind the one before it (first match, strictest level; an empty block right there), and the output is the file rebuilt around them |
| PatchApply.ErrorIsStuck | src/agent/apply_patch.rs:183-189 | failure means the hunks before the named block stand at their best places and the block matches nowhere behind them |
| PatchApply.PlacementDecides | src/agent/apply_patch.rs:177-204 | and conversely: best places decide the output, a stuck hunk decides the error |
| PatchApply.UpdateFailsIff | src/agent/apply_patch.rs:177-211 | an update fails exactly when some hunk has no place behind those before it, and names that hunk's lines |
| PatchApply.ScriptIsExact | src/agent/apply_patch.rs:190-202 | exactly the deletions are cut and exactly the insertions added; all else is the file's own text |
| PatchApply.ScriptCounts | src/agent/apply_patch.rs:190-202 | line count is the original less what was cut plus what was added |
| PatchApply.UndoRestores | src/agent/apply_patch.rs:190-204 | swapping insertions with the removed lines, at the shifted places, matches exactly and gives the original back |
| PatchApply.AssembledHasItsLinesIff | src/agent/apply_patch.rs:205-210 | the text written has exactly the lines built unless a blank last line is lost |
| PatchApply.UntouchedTextIsSameIff | src/agent/apply_patch.rs:179-210 | lines written back unchanged give the same text exactly when all line ends are alike and the file is not one line end alone |
| PatchApply.BlankLastLineIsLost | src/agent/apply_patch.rs:177-211 | for every one-line file without a newline, a hunk adding a blank line succeeds and the text reads back without it |
| PatchApply.UpdateIsFaithful | src/agent/apply_patch.rs:177-211 | for plain and CRLF files: every successful update puts each hunk at its best place, accounts for every line, and reads back as built under the same condition |
| PatchFiles.Workspace.Apply | src/agent/apply_patch.rs:276-345 | a parse or validation error leaves all files as they were; otherwise all steps are computed from the old files and run in order |
| PatchFiles.PlanFailsIff | src/agent/apply_patch.rs:284-325 | validation passes exactly when every added file is new, every deleted or updated one exists and every hunk has a place; else it reports the first change at fault, and why |
| PatchFiles.CollectTargets | src/agent/apply_patch.rs:214-229 | lists each change's path and its rename destination |
| PatchFiles.OutsideTargetsUnchanged | src/agent/apply_patch.rs:213-229 | a file no listed path resolves to is left alone, even when a step fails |
| PatchFiles.DisjointChangesAreIndependent | src/agent/apply_patch.rs:284-338 | when no two changes touch one file, all steps succeed and each file is as its own change alone makes it |
| PatchFiles.RunFailsIff | src/agent/apply_patch.rs:284-338 | a patch that passes validation fails on the way exactly when two of its changes remove the same file and none between them writes it |
| PatchFiles.DeletingTwiceFails | src/agent/apply_patch.rs:294-300 | deleting a file twice passes validation and fails with the file gone |
| Sse.ReadResponse | src/agent/mcp.rs:1885-1978 | the chunk loop with its buffer returns what the specification says, for any chunks |
| Sse.ChunkingDoesNotMatter | src/agent/mcp.rs:1943-1972 | for every body within the byte cap, every chunking gives the one-pass result |
| Sse.ScanJudgesEvents | src/agent/mcp.rs:1904-1972 | reading line by line judges the body's events in order |
| SsePrint.EventsOfPrinted | src/agent/mcp.rs:1904-1972 | a stream of events written with LF or CRLF, with other fields and comments between, a space behind the colon or not, and an unterminated tail, is read as exactly the non-blank payloads written, in order |
| Sse.ResponseIsFirstMatch | src/agent/mcp.rs:1876-1940 | the verdict is the first event that is the reply with fewer than 256 before it, else too many skipped, else closed; an event not closed by a blank line counts |
| SsePrint.VerdictOnPrinted | src/agent/mcp.rs:1885-1978 | the verdict on such a stream, however it is cut into chunks, is the first payload that is the reply with fewer than 256 before it, else too many skipped, else closed |
| Sse.OverTheCap | src/agent/mcp.rs:1944-1949 | over the cap, only a verdict reached within the chunks that fit is returned |
| StdioLines.BufReader.ReadLineBounded | src/agent/mcp.rs:1995-2027 | one line, end of stream or refusal, and what is left to read, for any chunks |
| StdioLines.ReadsEveryLine | src/agent/mcp.rs:1988-2027 | with every line within the limit the lines read are those of the bytes, whatever the chunks |
| StdioLines.RefusedIff | src/agent/mcp.rs:2009-2021 | a line is refused exactly when whole chunks in front of its newline pass the limit |
| StdioLines.AcceptedIsBounded | src/agent/mcp.rs:2003-2021 | read through a buffer of `cap` bytes, an accepted line is shorter than the limit plus the buffer, and within the limit if no newline ends it |
| StdioLines.OverlongLineFate | src/agent/mcp.rs:2009-2021 | a line over the limit is refused in some arrival, and is accepted in some arrival exactly when it is shorter than the limit plus the buffer |
| ToolTable.Specs | src/agent/mcp.rs:990-1013 | the loop advertises the first offer under each name, in order |
| ToolTable.ViewsAgree | src/agent/mcp.rs:968-1017 | advertised names are unique; a name is handled exactly when advertised; its lookup is the very tool advertised, collisions included |
| ToolTable.SpecsDescribeTools | src/agent/mcp.rs:968-1013 | each advertised spec carries the description and schema of the tool its name is routed to |
| ToolTable.AvailableToolCount | src/agent/mcp.rs:880-892 | counts the distinct names not disabled |
| ToolTable.CountIsNumberOfSpecs | src/agent/mcp.rs:880-892 | those are the advertised names not disabled; with nothing disabled, as many as there are specs |
| ToolTable.Sanitized | src/agent/mcp.rs:2112-2125 | at most 64 letters, digits, `_` or `-`; a name already of that form is kept |
| ToolTable.QualifiedNameShape | src/agent/mcp.rs:2108-2125 | the advertised name is `mcp__server__tool` with refused characters written `_`, cut at 64 |
| JobTables.JobTable.Spawn | src/agent/jobs.rs:159-223 | reap, drop all but the 32 latest finished jobs, refuse exactly at 16 running or when nothing started, else enter the job under the next id |
| JobTables.JobTable.PruneFinished | src/agent/jobs.rs:85-103 | the counting filter drops what the specification drops |
| Jobs.PrunedIsRunningAndRecent | src/agent/jobs.rs:84-103 | pruning keeps every running job and exactly the 32 most recently spawned finished ones, in order |
| Jobs.RecentIff | src/agent/jobs.rs:94-102 | an entry survives pruning exactly when it is running or fewer than 32 entries behind it have finished |
| JobTables.JobTable.Check | src/agent/jobs.rs:226-254 | reaps all and marks the one job as seen if it has finished |
| JobTables.JobTable.DrainFinishedNotices | src/agent/jobs.rs:258-270 | takes and marks exactly the finished jobs nobody was told of, in order |
| JobTables.JobTable.KillBegin | src/agent/jobs.rs:276-291 | signals exactly a running job |
| JobTables.JobTable.KillEnd | src/agent/jobs.rs:305-312 | the job is told of and, unless it was already `Killed`, has the exit code of its process or else is `Killed`; every other job is untouched |
| JobTables.JobTable.KillAllEnd | src/agent/jobs.rs:356-362 | the same for exactly the jobs this call signalled, told or not as they were |
| JobRuns.StepKeepsInv | src/agent/jobs.rs:226-363 | one step of any kind keeps the table's invariant |
| JobRuns.RunKeepsInv | src/agent/jobs.rs:69-363 | in every reachable table: at most 16 running and 48 entries, ids strictly increasing, an end time exactly when not running, `Killed` only if signalled, each finish drained at most once and never after it was told |
| JobRuns.RunEvolves | src/agent/jobs.rs:226-363 | between any two points of a run: exit codes, kills and end times stay, only a death by signal of a signalled job becomes `Killed`, ids are never reused |
| JobRuns.KillClosesJob | src/agent/jobs.rs:446-452 | both kinds of kill, in every reachable world: a closed job is settled by what its process did, no other job changes |
| JobRuns.KillIsFinal | src/agent/jobs.rs:305-362 | in every run, once a kill of a job has closed the job is `Killed` or has an exit code, ever after |
| JobRuns.NothingIsStale | src/agent/jobs.rs:434-442 | after any section that reaps, a job listed as running has not exited, and one just found dead ended now |
| JobRuns.DrainLeavesNoneUntold | src/agent/jobs.rs:226-319 | in every reachable table a finish is marked as told only if it was told, so after draining every finished job still listed has been told of |
| JobRuns.SpawnKeepsJobIff | src/agent/jobs.rs:159-163 | a spawn drops a job from the table exactly when it has finished and 32 later ones have too |
| JobRuns.SpawnLosesFinishIff | src/agent/jobs.rs:159-163 | in every run, a spawn loses a finish not told of and not about to be reported by a kill exactly when 32 later jobs have finished |
| JobRuns.LostForGood | src/agent/jobs.rs:226-363 | no continuation of the run tells of a lost finish |
| JobRuns.FinishCanBeLost | src/agent/jobs.rs:159-223 | a run of 34 spawns and 33 exits that loses the first finish |
| JobRuns.RunSignalsRunning | src/agent/jobs.rs:275-337 | in every run, each id ever signalled was listed as running when it was first signalled |
| ToolRepair.FindOpen | src/agent/tool_repair.rs:51-62 | finds the first real opener, stepping over look-alikes |
| ToolRepair.MatchBlock | src/agent/tool_repair.rs:72-96 | the depth counter ends exactly where openers and closers first balance, or reports that they never do |
| ToolRepair.StripBalancedTag | src/agent/tool_repair.rs:64-106 | the output is the text minus blocks that each start at a real opener and end where the depth first is zero; all from the first unbalanced opener on is kept |
| ToolRepair.CutsAreDisjoint | src/agent/tool_repair.rs:64-106 | the cut blocks are disjoint, in order and inside the text |
| ToolRepair.CutsAreUnique | src/agent/tool_repair.rs:64-106 | the text determines them |
| ToolMarkup.MarkupIsStripped | src/agent/tool_repair.rs:64-106 | stripping one tag takes out exactly its blocks at any depth; blocks of other tags, look-alikes included, keep what else is in them |
| ToolRepair.StripsAllOnce | src/agent/tool_repair.rs:42-49 | and so the text left after all four tags |
| ToolMarkup.LeakedCallsAreStripped | src/agent/tool_repair.rs:42-106 | of prose with well-nested blocks in it, outermost ones in any of the four tags and any tags inside, stripping leaves exactly the prose |
| ToolRepair.StripsShrinks | src/agent/tool_repair.rs:64-106 | stripping leaves the text alone or makes it strictly shorter |
| ToolRepair.StripIfLeaked | src/agent/tool_repair.rs:28-39 | a changed text is strictly shorter, so the subtraction never saturates; the stripped text is returned exactly when markup dominates |
| ToolRepair.NothingToStrip | src/agent/tool_repair.rs:29-31 | the early return on a text without `<` is what stripping would give |
| LspFraming.LspServer.Write | src/agent/lsp.rs:324-328 | appends one frame, so what was written is the stream of the bodies written |
| LspFraming.ReadLoop | src/agent/lsp.rs:333-366 | the nested loops forward what the specification says, for every byte stream |
| LspFraming.WrittenBodiesAreReceived | src/agent/lsp.rs:324-366 | every list of non-empty bodies written is the list read back |
| LspFraming.OtherHeadersDoNotMatter | src/agent/lsp.rs:336-350 | other header lines before or after `Content-Length` do not change what is read |
| LspFraming.CutStream | src/agent/lsp.rs:331-366 | cut after any number of bytes, a stream yields exactly the bodies it still holds whole |
| LspFraming.WholeFrames | src/agent/lsp.rs:331-332 | how many frames that is |
| LspFraming.ParseOfDecimal | src/agent/lsp.rs:346-348 | printing a length and parsing the header value gives it back |
| Notes.Scratchpad.Merge | src/agent/notes.rs:74-101 | the list and the outcome after a merge |
| Notes.EveryListIsHealthy | src/agent/notes.rs:71-101 | every list reached from empty has unique ids, at most `cap` notes, and equal texts only under two ids |
| Notes.MergedNoteIsPresent | src/agent/notes.rs:74-101 | the merged text is there afterwards, under its id, and last unless it revised a note in place |
| Notes.NoteWithIdStaysIff | src/agent/notes.rs:74-101 | a note with an id survives a merge exactly when it is not the one revised nor dropped by the cap |
| Notes.NoteWithoutIdStaysIff | src/agent/notes.rs:74-101 | a note without an id survives unchanged exactly when the merged note does not say the same under an id, nor the cap drops it |
| Notes.IdsKeepTheirLastWord | src/agent/notes.rs:71-101 | over every run that adds at most `cap` notes, however many it revises or refreshes, each id holds the last text given to it |
| Notes.NoteWithoutIdCanBeRevisedAway | src/agent/notes.rs:77-98 | a three-merge run in which a text without an id is lost |
| Aliases.ResolveAlias | src/cli_args.rs:228-245 | terminates; returns the end of the alias chain, which is no alias, or the input when the chain cycles |
| Aliases.CyclesIff | src/cli_args.rs:236-244 | a chain cycles exactly when it is still on an alias after as many steps as there are aliases |
| Aliases.EndOfChainIsUnique | src/cli_args.rs:238-244 | looking further than the end changes nothing |
| FailureGuards.FailureGuard.Observe | src/agent/guards.rs:81-104 | the tally and the action after a batch |
| FailureGuards.StopsAtTheFourth | src/agent/guards.rs:88-93 | a batch stops the turn exactly when some signature has failed four times; until then every count is the number seen and at most 3 |
| FailureGuards.HintsAtTheFirst | src/agent/guards.rs:94-101 | otherwise it hints at the first failure, at least the second of a signature not hinted before, and marks that signature alone |
| FailureGuards.TurnStopsIff | src/agent/guards.rs:78-104 | over a whole turn, the stopping batch is the one that brings a signature to four |
| FailureGuards.HintedOnce | src/agent/guards.rs:94-96 | no signature is hinted twice in a turn |
| FailureGuards.TurnIsBounded | src/agent/guards.rs:78-104 | with n distinct signatures, the batch that brings more than 3n failures stops the turn |
| FailureGuards.SignatureSeparates | src/agent/guards.rs:46-49 | for tool names without NUL, equal signatures mean the same tool and the same leading text |
| FailureGuards.DenialIff | src/agent/guards.rs:53-56 | a denial is a text that, blanks aside, starts with one of the two phrases, and nothing else is |

## Left out

- Engine.AgentEngine.CompactionBudget: uses real arithmetic; the source's floating point can round differently in the last place.
- Engine.AgentEngine.UpdateCalibration: real arithmetic, for the same reason.
- Engine.AgentEngine.RecalibrateFromOverflow: the token count cited in the error text is a parameter; parsing it out of the text is not modelled.
- Engine.AgentEngine.MaybeCompact: user notices are not modelled; the summary is any string or a failure, with any token count.
- Json.SerializedLenIsTextLen: fields are written in one order, which does not change the length; the parts kept as texts (content parts, other fields) are any texts.
- Engine.AgentEngine.ApplyCompaction: array content of the turn folded into is replaced by the summary, as the source does; nothing is claimed about its text surviving.
- PatchPrint.PrintParseRoundTrip: paths must be trimmed and lines free of newlines and trailing carriage returns, and an added file's content must be empty or end in a newline, because the parser always ends it in one.
- PatchApply.UpdateIsFaithful: a file of plain newlines that ends in a lone carriage return, and hunk lines that end in one, are not covered; reading such lines back can merge the carriage return into the newline.
- PatchApply.UndoRestores: is about lines at known places, not about running the reverse patch through the search, which may find an earlier match.
- PatchFiles.Workspace.Apply: the summary text, unreadable or non-UTF-8 files, directories and write errors are not modelled; path resolution is an arbitrary function.
- Sse.ReadResponse: stream errors and the timeout are not modelled; what makes an event the reply is an arbitrary function of its payload.
- SsePrint.EventsOfPrinted: a `data:` text ending in a carriage return, and one that starts with a blank written without the space, read back without it and are not among the texts written.
- StdioLines.BufReader.ReadLineBounded: read errors, the timeout and the lossy decoding of the line are not modelled.
- ToolTable.Specs: the connected servers are a list in any order; the source iterates a hash map, whose order stays the same while the map does. Connecting and listing tools (`connect_loaded`, `parse_tools`) is not modelled.
- JobTables.JobTable.Spawn: whether the log directory, log file and process could be made is one boolean parameter; sandboxing is not modelled.
- JobTables.JobTable.Check: the status text and the log tail are not modelled.
- JobTables.JobTable.KillBegin: which signal is sent and whether the process obeys are not modelled; an exit may come at any time or never. A job's name `j<n>` is its number.
- ToolRepair.StripBalancedTag: stripping again may remove more, since a cut can join text into a new tag; idempotence is not claimed.
- LspFraming.WrittenBodiesAreReceived: bodies must be valid JSON of a length that fits `usize`, which is what `write` sends; a closed receiver is not modelled.
- LspFraming.ReadLoop: a closed receiver and allocation of an oversized body are not modelled.
- Notes.IdsKeepTheirLastWord: once more than `cap` notes have been added the oldest go, as `Notes.NoteWithIdStaysIff` says for each merge.
- Notes.Scratchpad.Merge: the normal form of a text (lower case, single blanks) is an arbitrary function of it.
- The summary request and transcript (`build_summary_request`, `serialize_transcript`): text assembly without a property to keep.
- `diff_blocks`, `target_paths` callers and the chat display: only presentation.
- `merge_bundle_with_user`, `extract_aivo_flags` and the rest of `src/cli_args.rs`: argument tables with many independent cases.
- LSP diagnostics, settle waits and server start-up; MCP handshakes, authentication and retries: network, processes and clocks.
- The remaining guards (`batch_sig`, `page_read_key`, text heuristics): one-line functions.
