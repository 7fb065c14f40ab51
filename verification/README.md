# Verified models of the coding runtime, its model registry, and the pipeline scanners

This Dafny project models the parts of the repository that are real algorithms, and proves what
they are for. Regular expressions are written out as functions on characters, subprocess outcomes,
filesystem answers and clocks are parameters or actions, and the repository's branches, constants
and edge cases are kept. Where a property is false of the code the code is modelled as it is, a
lemma gives an input or a run on which it fails, and the exact condition under which it holds is
proved.

Run `dafny verify dfyconfig.toml` in this directory.

## What is modelled

**Async coding turns** (`TurnProtocol`). One microVM: submit, dedupe, busy check, setup failure,
abandon, runner thread, backstop timer and poll, over the in-memory table and a directory per turn.
Each action is one access to the shared state, and threads interleave freely. The submit prefix is one
step because the handler never suspends in it. `Reachable` is a state of any run. The sweep a starting
runner does is two steps, a list and a drop, so an interleaving in between can drop the running record of
a turn that has a runner, or a handler about to start one; `CleanlyReachable` is a state of a run where
that does not happen. What is proved of the in-memory table needs it and says so, and `CleanIsExact` shows
that it is the exact condition: such a drop can always be continued to two runners of one turn. What is
proved of verdicts, resubmits and directories holds of every run. The class `Vm` is the process, each of
its methods proved to take the step the model says.

**The lock file and publication** (`MirrorLock`, `Publication`). Create, token write, stat, rename,
unlink and read are one step each, any number of processes run, and a process may crash anywhere. The
acquire loop and the release are proved against the same transition function the step system uses. Publication
is modelled with any number of builders in one directory and no lock at all: temporaries are names there,
renames, unlinks and clean-ups act on names, and that a random suffix is new is a stated condition.

**Selections, the rollout sanitizer, threads and models** (`Selection`, `Rollout`, `ThreadBinding`).

**Buildspec and stack scanners** (`TsLexer`, `BashHeredocs`, `WordWalker`, `StatementWalk`, with
`PyText` for the Python string methods). What they read is written down a second time as grammars, with
what each text means: `TsGrammar` for stack files, `HeredocForms` for openers and comments, the words of
`WordWalker` and the commands of `ShellCommands`; and the scanners are proved to read every text so
written, `TsGrammar` no other. The order in which several here-documents of one line are read
is that of section 2.7.4 of the POSIX.1-2017 Shell Command Language; `Pending` states it line by line,
as the reference both scanners are compared with.

**Model registry** (`ModelRegistry`, `ModelRouting`). The parse with its three passes, the validator's
error map, and the resolvers.

**Codex config merge** (`CodexConfig`, `CodexMeaning`, `JsonText`), on whole files with Python's line
ends and the JSON escapes: what survives a merge, and which value then stands at which key.

**SSE pipeline** (`SseReader`, `SseWriting`, `SseRelay`). The reader of `src/lib/sse.ts` and the relay loop of
`src/lib/agentcore-sdk.ts`, over every chunking of either hop. The event stream format is that of
sections 9.2.5 and 9.2.6 of the HTML Living Standard; the code departs from it by not taking a lone CR
for a line end and by yielding the trailing frame at the end of the stream, and so does the model.

**Session sweep** (`SessionSweep`), **CD registry** (`CdRegistry`, `CdForms`), **import closure**
(`ImportClosure`).

## Where the code and its own comments differ

- `main.py:1603-1604` says two waiters cannot both believe they stole a stale lock. Stat and rename are two
  calls, and they can: `MirrorLock.TwoHolders` gives the run, for every stale bound.
- `main.py:154-158` derives the dependency lock's stale bound as for the mirror lock. Its hold spans two
  subprocesses under the build timeout, or an extraction under a timeout of its own, and exclusion holds
  exactly while the one is at most 900 s and the other within the bound: `MirrorLock.DepsLockExcludes`.
- `main.py:3917-3920` answers `deduped` for any existing turn directory, also one whose claim failed
  while writing meta.json and never ran: `TurnProtocol.DedupedExactly`.
- `main.py:3464-3466` lets two turn ids share a directory. A submit into the directory of a runner that
  has still to write, which takes a prune of that directory, can have one done.json replaced by another:
  `TurnProtocol.ApartIsExact`.
- `models_registry.py:583-584` says a tier word of one CLI means nothing to the other, and as a word it
  does. Where such a word routes at a dated snapshot it keeps the snapshot's own row, so the snapshot's id
  resolves to another id for both: `ModelRouting.OtherTierKeepsNames`,
  `ModelRouting.OtherTierKeepsASnapshot`.
- `models_registry.py:66` ends in `$`, which also matches before a final newline; the validator accepts
  such a target and the resolver strips it: `ModelRouting.NewlineTargetIsServed`.
- `models_registry.py:579-582` calls `quarantine` a kill switch over every source. An environment value
  that names a withdrawn row, by an alias of a listed one or by the id of one withdrawn by its status
  alone, passes it, in exactly the cases `ModelRouting.AgentModelClean` and
  `ModelRouting.CodingModelClean` give.
- `check-pipeline-contract.py:843-850` scopes every command substitution. A backtick that begins a word
  is taken for a separator (lines 895-899), so its body is walked in the caller's own scope and an
  assignment in it defines the caller's name: `StatementWalk.ScopedExactly`,
  `StatementWalk.ABodyDefinesTheCaller`.
- `cd-registry.ts:87` says a reference normalises to owner/name. What comes out may itself normalise to
  something shorter: `CdRegistry.KeyIsItsOwnKey`, `CdRegistry.TwiceGitIsUnsettled`.
- `handler.py:91` says a timestamp parses to an aware time or to none. One without an offset parses to a
  naive time, and the sweep ends at the first row whose decision subtracts it:
  `SessionSweep.RaisesExactly`.

## Model

| member | source | states |
|---|---|---|
| TurnProtocol.OneTurnPerSession | deploy/coding-agent-runtime/main.py:3446-3461 | in every cleanly reachable state no two turns of one session are marked running, and no two unfinished runners share a turn or a session |
| TurnProtocol.OnlyAForcedRunnerShares | deploy/coding-agent-runtime/main.py:3582-3606 | in a cleanly reachable state two runner threads drive a CLI in one session only after the backstop published for one of them |
| TurnProtocol.AForcedRunnerCanShare | deploy/coding-agent-runtime/main.py:3587-3606 | and after that they can: a cleanly reachable state with two |
| TurnProtocol.RunningMeansOwned | deploy/coding-agent-runtime/main.py:3540-3549 | in a cleanly reachable state a turn is marked running exactly while the handler, an unfinished runner, or a handler that raised owns it; only a failing setup whose record a sweep dropped is owned without one |
| TurnProtocol.CleanIsExact | deploy/coding-agent-runtime/main.py:3562-3565 | from a cleanly reachable state with an unused id left, a sweep keeps one turn per session and one runner per turn in every clean continuation if and only if it drops no running record of a turn that has a runner or a handler about to start one |
| TurnProtocol.SweepDropsAClaim | deploy/coding-agent-runtime/main.py:3562-3565 | a run in which two sweeps listed one finished turn ends with two running turns in one session |
| TurnProtocol.OneVerdictPerClaim | deploy/coding-agent-runtime/main.py:3540-3549 | in every reachable state, sweeps unrestricted, a claim has published at most one done.json and then one record, the same verdict both times, so forced, normal and setup verdicts exclude each other |
| TurnProtocol.PublishesWhatItLeaves | deploy/coding-agent-runtime/main.py:3540-3549 | every step that files a verdict leaves that very verdict in its turn's done.json, and every step that records one leaves it in memory |
| TurnProtocol.ReplacedByFiling | deploy/coding-agent-runtime/main.py:3540-3549 | a done.json goes only with its directory or to a verdict the step files in its place |
| TurnProtocol.PollAnswersWhatWasPublished | deploy/coding-agent-runtime/main.py:3675-3689 | on every run a poll that answers done gives a verdict of that turn the run recorded, or one it filed in that turn's directory, or the done.json found there at the start |
| TurnProtocol.PollsAgree | deploy/coding-agent-runtime/main.py:3675-3689 | on a VM that started without verdicts, two done answers about one claim, now or later, from memory or from disk, are the same |
| TurnProtocol.VerdictKept | deploy/coding-agent-runtime/main.py:3661-3670 | from a cleanly reachable state no step replaces a verdict held in memory; it stays or is swept |
| TurnProtocol.UncleanSweepCostsAVerdict | deploy/coding-agent-runtime/main.py:3562-3565 | after any sweep that is not clean, from a cleanly reachable state with an unused id left, some run goes on to replace one verdict in memory by another |
| TurnProtocol.BackstopStandsDown | deploy/coding-agent-runtime/main.py:3588-3595 | from any reachable state a backstop that takes the lock after the CLI was reaped publishes nothing, then or later in any run: every record of that claim is the runner's |
| TurnProtocol.CancelledBackstopIsSilent | deploy/coding-agent-runtime/main.py:3645-3646 | and so does one the runner cancels when its stream has ended |
| TurnProtocol.PollNeverGoesBack | deploy/coding-agent-runtime/main.py:3675-3689 | on a clean run from a cleanly reachable state a poll that answered done never later answers running while the record or the directory is retained |
| TurnProtocol.ResubmitStartsNothing | deploy/coding-agent-runtime/main.py:3914-3920 | from any reachable state, on any run, while the record or the directory survives no action adds a runner for the turn |
| TurnProtocol.ShareADirectory | deploy/coding-agent-runtime/main.py:3464-3466 | two turns share a directory if and only if their first eighty characters agree, but for those a name does not keep, and neither is longer within them |
| TurnProtocol.DoneFileKept | deploy/coding-agent-runtime/main.py:3540-3548 | on every run whose accepted submits each have a directory no runner has still to write into, no step of anyone replaces one done.json by another |
| TurnProtocol.ApartIsExact | deploy/coding-agent-runtime/main.py:3464-3466 | and a submit keeps that for good if and only if no runner has still to write into its directory: otherwise some run rewrites a done.json |
| TurnProtocol.TidyIsApart | deploy/coding-agent-runtime/main.py:3497-3510 | prunes that spare the directories of turns still to write are enough for it |
| TurnProtocol.APrunedLiveDirIsRewritten | deploy/coding-agent-runtime/main.py:3464-3466 | two turn ids that share a directory name rewrite it after a prune |
| TurnProtocol.DedupedExactly | deploy/coding-agent-runtime/main.py:3914-3920 | for every reachable state and step that makes a directory, and as long as it lasts, a claim stands behind it at some point if and only if it was not a submit failing in meta.json with no such claim around; where none does, polls answer unknown and submits change nothing |
| TurnProtocol.AHalfMadeClaimDedupes | deploy/coding-agent-runtime/main.py:3513-3529 | a reachable state in which every resubmit of an id that never ran is a no-op |
| TurnProtocol.Vm.SessionBusyTurn | deploy/coding-agent-runtime/main.py:3446-3461 | answers a turn exactly when another turn of a non-empty session is running, and the turn it names holds that record |
| TurnProtocol.Vm.SubmitTurn | deploy/coding-agent-runtime/main.py:3901-3926 | the async prefix of a submit takes the model's step; each reply is tied to the state it was given in |
| TurnProtocol.Vm.ForceTerminal | deploy/coding-agent-runtime/main.py:3582-3606 | forces only if no verdict is out and the CLI has not been reaped |
| TurnProtocol.Vm.DropStale | deploy/coding-agent-runtime/main.py:3562-3565 | drops exactly the listed records |
| MirrorLock.AcquireMirrorLock | deploy/coding-agent-runtime/main.py:1594-1638 | the retry loop follows the transition function of one process over any answers: it reports holding exactly when that function does |
| MirrorLock.ReleaseMirrorLock | deploy/coding-agent-runtime/main.py:1641-1655 | the release asks for the unlink exactly when what it read is its own token, and is then done |
| MirrorLock.FileIsAccountedFor | deploy/coding-agent-runtime/main.py:1594-1655 | on every run, thefts included, a lock file is that of a process still at it, or of one whose token write, release read or release unlink failed, or that crashed |
| MirrorLock.FreeOnceReleased | deploy/coding-agent-runtime/main.py:1641-1655 | so once every holder has released in good order the next create succeeds |
| MirrorLock.LeftBehindExactly | deploy/coding-agent-runtime/main.py:1594-1655 | on every theft-free run a process that made the file, has ended and was not renamed away leaves it behind if and only if one of those calls failed or it crashed |
| MirrorLock.ExclusionWhileNothingIsStale | deploy/coding-agent-runtime/main.py:1594-1655 | for any processes and interleaving, crashes and failed calls included, at most one holds the lock while no lock file's age passes the bound |
| MirrorLock.ExclusionWithStealing | deploy/coding-agent-runtime/main.py:1627-1635 | with stealing too, if no hold outlives the bound and every rename takes the file its stat saw |
| MirrorLock.NoTheftMeansExclusion | deploy/coding-agent-runtime/main.py:1611-1638 | a run without a theft keeps exclusion |
| MirrorLock.TheftBreaksExclusion | deploy/coding-agent-runtime/main.py:1627-1655 | and every theft, whatever its owner was doing, can be continued to two holders |
| MirrorLock.TwoHolders | deploy/coding-agent-runtime/main.py:1627-1632 | for every stale bound a run of stat-then-rename reaches two holders with every hold zero seconds old before the theft |
| MirrorLock.MirrorLockExcludes | deploy/coding-agent-runtime/main.py:112-119 | build timeout plus three 30 s calls is below max(1800, build + 300) for every timeout, so holds within it never make the mirror lock look stale |
| MirrorLock.HoldBoundIsExact | deploy/coding-agent-runtime/main.py:1594-1655 | for any bound on holds and any stale bound, every run with renames on the file their stat saw keeps exclusion if and only if the one does not exceed the other |
| MirrorLock.DepsLockExcludes | deploy/coding-agent-runtime/main.py:140-158 | the dependency lock's legal holds keep exclusion if and only if the build timeout is at most 900 and the extract timeout is within the stale bound |
| Publication.NeverHalfBuilt | deploy/coding-agent-runtime/main.py:1730-1761 | at every point of every run with new temporary names, crashes, clean-ups and in-place refreshes anywhere, a published mirror or tarball is whole, and a local copy is whole exactly while no eviction has unlinked a file of it |
| Publication.SharedNameBreaks | deploy/coding-agent-runtime/main.py:2277-2295 | were a temporary name taken twice, each of the three kinds has a run that publishes a half-built copy |
| Publication.TornCopyIsUsable | deploy/coding-agent-runtime/main.py:2207-2221 | any whole copy an eviction has begun to delete passes the usable check and blocks every later build while anything of it is left |
| Publication.ATornCopy | deploy/coding-agent-runtime/main.py:2355-2385 | a run that gets there |
| Selection.Harvest | deploy/coding-agent-runtime/main.py:1201-1209 | keeps a prefix of the stable size order within both caps that one more file would not fit |
| Selection.HarvestIsOptimal | deploy/coding-agent-runtime/main.py:1201-1209 | no selection of the candidates within both caps has more files |
| Selection.FirstAreSmallest | deploy/coding-agent-runtime/main.py:1201-1201 | no choice of m artifacts weighs less than the first m of the size order |
| Selection.SweepDepsLocal | deploy/coding-agent-runtime/main.py:2355-2388 | leaves the newest copies and the held ones |
| Selection.SweepSettles | deploy/coding-agent-runtime/main.py:2355-2388 | a copy is evicted only while `keep` survivors are at least as new, and a second sweep evicts nothing |
| Rollout.Sanitize | deploy/coding-agent-runtime/main.py:749-811 | the two loops compute the sanitized text, and raise exactly when some line decodes to what they cannot read |
| Rollout.DroppedExactly | deploy/coding-agent-runtime/main.py:774-806 | a line goes if and only if it is reasoning that another provider encrypted, or a call to whose id no line gives an output |
| Rollout.WhatIsKept | deploy/coding-agent-runtime/main.py:791-806 | the kept lines are a subsequence in which every line the rules do not drop occurs as often as before; kept calls have their outputs kept; kept reasoning is portable |
| Rollout.SanitizeTwice | deploy/coding-agent-runtime/main.py:842-857 | sanitizing a sanitized file changes nothing, on the text |
| ThreadBinding.BoundForLife | deploy/coding-agent-runtime/main.py:3018-3059 | over serial writes a recorded model never changes and a later turn resumes the thread if and only if it runs that model, ported threads included; hint and guard use the same bound model |
| ThreadBinding.OneModelPerThread | deploy/coding-agent-runtime/main.py:2963-3059 | a thread started on the volume only ever runs under one model, failed and unrecorded turns included |
| ThreadBinding.KeptExactly | deploy/coding-agent-runtime/main.py:281-304 | a turn leaves a thread's recorded model as it was if and only if it writes nothing, or its write is saved or refused whole, or comes from an old copy that has that model, or records it itself |
| ThreadBinding.LostRecordRebindsExactly | deploy/coding-agent-runtime/main.py:281-304 | for a ported thread with a recorded model, in any state, some next turn can resume it under another model if and only if this turn's write was torn, or came from an old copy without that model and did not record it itself |
| ThreadBinding.LostRecordRebinds | deploy/coding-agent-runtime/main.py:281-304 | a run in which that happens |
| ThreadBinding.Volume.RememberSession | deploy/coding-agent-runtime/main.py:281-304 | the read-modify-write keeps the stored model when the call carries none |
| TsLexer.StripTsComments | deploy/pipeline/check-pipeline-contract.py:75-177 | the loop with its stack and two buffers computes the run of the lexer |
| TsGrammar.TextIsRead | deploy/pipeline/check-pipeline-contract.py:75-177 | every text written in the grammar of code, strings, templates, expressions and both kinds of comment is read as written: code is the text with its comments blank, masked besides without what its strings hold |
| TsGrammar.AcceptsExactly | deploy/pipeline/check-pipeline-contract.py:75-177 | and the lexer succeeds on a text if and only if it is written so |
| TsLexer.OffsetsKept | deploy/pipeline/check-pipeline-contract.py:75-177 | both outputs have the source's length, code keeps every newline at its offset, and masked is blank wherever the run reads what a quoted or template string holds, and is code everywhere else |
| TsLexer.MaskedNewlines | deploy/pipeline/check-pipeline-contract.py:131-148 | masked keeps every newline if and only if no quoted string is continued over a line end |
| TsLexer.StripIsIdempotent | deploy/pipeline/check-pipeline-contract.py:75-177 | the lexer returns the same pair on its code output, and masked twice on masked |
| TsLexer.BraceWalk | deploy/pipeline/check-pipeline-contract.py:180-192 | finds the first point where every brace opened since is closed, and none exists when it fails |
| BashHeredocs.StripBashComments | deploy/pipeline/check-pipeline-contract.py:548-635 | the line loop computes the stripper's run |
| BashHeredocs.BlankHeredocBodies | deploy/pipeline/check-pipeline-contract.py:641-669 | the search-ahead loop computes the blanker's result |
| HeredocForms.HeredocExactly | deploy/pipeline/check-pipeline-contract.py:638-638 | what both scanners take for an opener is exactly `<<` or `<<-`, spaces, and a tag quoted on both sides alike or unquoted and whole, not behind another `<` |
| HeredocForms.CutAtTheComment | deploy/pipeline/check-pipeline-contract.py:606-631 | a line is cut exactly at its first bare hash at the start or after a space with no brace behind it, and otherwise hands on how its end is quoted |
| BashHeredocs.StripperFollows | deploy/pipeline/check-pipeline-contract.py:579-635 | the stripper passes every here-document line unchanged and waits for exactly the terminators the reference waits for |
| BashHeredocs.BlankerFollows | deploy/pipeline/check-pipeline-contract.py:641-669 | the blanker blanks exactly the lines the reference calls bodies, several openers on one line included |
| BashHeredocs.Lockstep | deploy/pipeline/check-pipeline-contract.py:548-669 | run on the stripper's output, the blanker raises exactly when the stripper ended with a pending terminator, it blanks the bodies, and before every line the stripper waits for the very terminators that tell commands from bodies |
| BashHeredocs.StripTwice | deploy/pipeline/check-pipeline-contract.py:548-635 | stripping again changes nothing |
| BashHeredocs.LineNumbersKept | deploy/pipeline/check-pipeline-contract.py:959-967 | both derived texts keep length and newline offsets |
| BashHeredocs.AlignedLineNumbers | deploy/pipeline/check-pipeline-contract.py:858-859 | so every offset has the same line number in all of them |
| WordWalker.ConsumeWord | deploy/pipeline/check-pipeline-contract.py:719-834 | the loop and its explicit stack compute the word's end and its substitution spans, on every text |
| WordWalker.WordIsRead | deploy/pipeline/check-pipeline-contract.py:719-834 | for every word written in the grammar of quotes, escapes, substitutions, parameters, backticks, arrays and brackets, in any text and before whatever ends it, the walker stops right behind it and reports exactly its command substitutions |
| WordWalker.SpansInside | deploy/pipeline/check-pipeline-contract.py:719-834 | every span lies strictly inside its word and before the end of the range, which is why the recursion ends |
| WordWalker.SpansNest | deploy/pipeline/check-pipeline-contract.py:719-834 | two spans of one word are disjoint or nested |
| StatementWalk.ScanStatements | deploy/pipeline/check-pipeline-contract.py:879-956 | the caller's definitions are those of a walk that steps over the substitution bodies of each word; self-references and export reads are those of the whole walk |
| ShellCommands.CommandIsRead | deploy/pipeline/check-pipeline-contract.py:879-956 | for every command of such words, anywhere in a text, the walk's own scope reports exactly what the command means, in order, and goes on afresh behind its separator |
| ShellCommands.CommandSteps | deploy/pipeline/check-pipeline-contract.py:911-956 | what a command means, assignments before the command word and then the arguments of its builtin, is what the walk's steps report word by word |
| ShellCommands.AssignmentExactly | deploy/pipeline/check-pipeline-contract.py:714-714 | a word is an assignment if and only if it is a name, an index or none, a plus or none, an equals sign and a value |
| StatementWalk.BodiesReachCaller | deploy/pipeline/check-pipeline-contract.py:902-906 | every event of a substitution body is in the walk of the word that holds it |
| StatementWalk.OwnEventsReach | deploy/pipeline/check-pipeline-contract.py:879-956 | and so is everything the word's own walk reports |
| StatementWalk.DefinedNames | deploy/pipeline/check-pipeline-contract.py:862-876 | a name ends up defined exactly when it was or some event defines it, and the first line stands |
| StatementWalk.ScopedExactly | deploy/pipeline/check-pipeline-contract.py:879-902 | a scope's own walk keeps to where the shell's would, with backticks beginning words, if and only if it meets no backtick at a word position before the last character of the range |
| StatementWalk.NothingLeaks | deploy/pipeline/check-pipeline-contract.py:843-850 | and then nothing in a substitution body is defined, or read by an export, in the caller's scope |
| StatementWalk.BareBacktickLeaks | deploy/pipeline/check-pipeline-contract.py:895-899 | with one, what follows it is walked in the caller's scope from a fresh context, so what its first word does is the caller's |
| StatementWalk.ABodyDefinesTheCaller | deploy/pipeline/check-pipeline-contract.py:843-850 | a text whose backtick body defines the caller's name |
| StatementWalk.LeadingBacktickSwallows | deploy/pipeline/check-pipeline-contract.py:895-902 | after a backtick that begins a word, one name and its partner, with no later backtick or backslash, nothing in the rest of the text is a definition |
| CodexConfig.SplitUserConfig | deploy/coding-agent-runtime/merge-codex-config.py:60-82 | the line loop with its two flags computes the split |
| CodexMeaning.KeyIsOursExactly | deploy/coding-agent-runtime/merge-codex-config.py:51-57 | a line that assigns a bare key is ours if and only if the key is one of five, so `model_reasoning_effort` and the like are the user's |
| CodexMeaning.FateExactly | deploy/coding-agent-runtime/merge-codex-config.py:60-82 | a line before the first header is kept unless it is one of our keys, one from there on unless the header it is under names a provider of ours |
| CodexConfig.SplitIsClean | deploy/coding-agent-runtime/merge-codex-config.py:60-82 | what the split returns holds no header and no key of ours above, no table of ours below, and is stripped |
| CodexConfig.SplitUndoesMerge | deploy/coding-agent-runtime/merge-codex-config.py:96-109 | for every file and endpoint, splitting the merged file gives the split of the file, so user lines keep order and level |
| CodexConfig.LastMergeWins | deploy/coding-agent-runtime/merge-codex-config.py:96-109 | merging twice is merging the second, and merging again changes nothing |
| CodexMeaning.OursStandOnce | deploy/coding-agent-runtime/merge-codex-config.py:96-109 | whatever the user's file, in the merged one each key of ours is assigned before the first header exactly once and to our value, the search switch with the one endpoint only |
| CodexMeaning.OurTableStandsOnce | deploy/coding-agent-runtime/models_registry.py:876-885 | and there is one table of our provider, in which each of its keys is assigned once, to our value |
| CodexMeaning.ProjectStandsOnce | deploy/coding-agent-runtime/models_registry.py:886-892 | the project header is there once with mantle, and not at all otherwise |
| JsonText.JsonReadsBack | deploy/coding-agent-runtime/models_registry.py:863-868 | every text written as a JSON string reads back as itself, surrogate pairs included |
| CodexConfig.MergeIntoNothing | deploy/coding-agent-runtime/models_registry.py:855-901 | merging into an empty file is the whole fresh file |
| ModelRegistry.ParseRegistry | deploy/coding-agent-runtime/models_registry.py:273-361 | the three loops, with the rows, owners and errors they mutate, compute the normal form |
| ModelRegistry.NameHasOneRow | deploy/coding-agent-runtime/models_registry.py:300-350 | in every normal form an id or alias names at most one row |
| ModelRegistry.LookupsAgree | deploy/coding-agent-runtime/models_registry.py:560-567 | the resolver's linear walk and the validator's index find the same row for every name |
| ModelRegistry.NormalAgain | deploy/coding-agent-runtime/models_registry.py:273-361 | normalising again changes no row if and only if no alias is a legacyAliases key |
| ModelRegistry.LegacyAliasIsFolded | deploy/coding-agent-runtime/models_registry.py:332-350 | and such an alias is always the id of a dated snapshot folded into that row |
| ModelRegistry.LegacySnapshotNotSettled | deploy/coding-agent-runtime/models_registry.py:332-350 | a document on which that happens |
| ModelRegistry.FoldingKeepsTargets | deploy/coding-agent-runtime/models_registry.py:332-350 | a routing target that names a row after folding named that row before, folded ids among its aliases apart |
| ModelRouting.ValidateRegistry | deploy/coding-agent-runtime/models_registry.py:190-270 | the error map holds at each path the reason last written there, and the document is served exactly when none is fatal |
| ModelRouting.ServedExactly | deploy/coding-agent-runtime/models_registry.py:220-270 | a document is served if and only if every target has a tolerated reason by itself, but for agents outside the roster and for tier targets whose fatal reason a later tier map overwrites at the same path |
| ModelRouting.PlainTiersHideNothing | deploy/coding-agent-runtime/models_registry.py:234-242 | with distinct undotted tier keys no tier target is hidden, so each counts by itself |
| ModelRouting.ServedTargetsResolve | deploy/coding-agent-runtime/models_registry.py:575-637 | with undotted tier keys, every plain default, tier, rostered agent and legacy target of a served document reaches an active or candidate row and resolves to its id exactly when that id is not quarantined |
| ModelRouting.ToleratedExactly | deploy/coding-agent-runtime/models_registry.py:433-470 | a target is tolerated if and only if it is an id, not listed, that names a writable, priced row in service, and flagged exactly when that is a candidate not probed |
| ModelRouting.ResolvesExactly | deploy/coding-agent-runtime/models_registry.py:575-637 | a name resolves to what it means in its own CLI's tier map, then among the legacy names, then in the catalog, and a blank or listed one to nothing |
| ModelRouting.OtherTierMeansNothing | deploy/coding-agent-runtime/models_registry.py:612-620 | over the same rows, documents that differ only in the other CLI's tier map resolve every name alike |
| ModelRouting.OtherTierKeepsNames | deploy/coding-agent-runtime/models_registry.py:612-620 | and over the rows each normalises to, if both route at the same ids |
| ModelRouting.OtherTierKeepsASnapshot | deploy/coding-agent-runtime/models_registry.py:332-350 | two documents that do not, and resolve a name differently |
| ModelRouting.NeverQuarantined | deploy/coding-agent-runtime/models_registry.py:600-637 | resolve_model answers no quarantined id, by list or by status |
| ModelRouting.AgentModelClean | deploy/coding-agent-runtime/models_registry.py:654-670 | the agent resolver answers a withdrawn name, listed or of a row that is listed or out of service, if and only if nothing named resolves and either MODEL_ID is used as it is and is such a name, or it gives nothing and the literal is |
| ModelRouting.CodingModelClean | deploy/coding-agent-runtime/models_registry.py:683-732 | the coding resolver a withdrawn id if and only if nothing named resolves and either the first environment value that gives anything is used as it is and names a withdrawn row, or none does and the literal's id is withdrawn |
| ModelRouting.EnvAliasGetsThrough | deploy/coding-agent-runtime/models_registry.py:645-651 | a document on which an alias of a listed row gets through |
| ModelRouting.EnvIdGetsThrough | deploy/coding-agent-runtime/models_registry.py:645-651 | a served document on which the id of a row quarantined by its status gets through both resolvers |
| ModelRouting.NewlineTargetIsServed | deploy/coding-agent-runtime/models_registry.py:66-66 | a served target that ends in a newline resolves to nothing |
| ModelRouting.RosterHidesAReason | deploy/coding-agent-runtime/models_registry.py:262-266 | a roster verdict overwrites the fatal reason of the same agent |
| ModelRouting.DottedTierHidesAReason | deploy/coding-agent-runtime/models_registry.py:234-242 | two dotted tier paths that join to one let a tolerated reason overwrite a fatal one |
| SseReader.SplitEventsAppend | src/lib/sse.ts:37-49 | at any chunk boundary, all but the last piece of the first half stay cut as they are |
| SseWriting.ReadsWhatIsWritten | src/lib/sse.ts:37-49 | any texts without carriage returns, written as events, are read back as they were |
| SseReader.ReadChunks | src/lib/sse.ts:30-63 | however the text is chunked, the payloads are those of one split of the whole, the trailing frame included |
| SseRelay.SseHeadExactly | src/lib/agentcore-sdk.ts:636-645 | a body is SSE exactly when what follows its leading white space begins with a comment or a field, and undecided exactly while it is white space or could still become a field |
| SseRelay.DecisionIsFinal | src/lib/agentcore-sdk.ts:636-645 | a decided head never changes its answer as more arrives |
| SseRelay.RelayBody | src/lib/agentcore-sdk.ts:739-780 | however the runtime's body is chunked, the relayed frames are a function of the whole body |
| SseRelay.EndToEnd | src/lib/agentcore-sdk.ts:739-780 | with heartbeats anywhere, the reader of the relayed stream gets the traces and exactly the payloads of the upstream data lines, in order |
| CdForms.FormsAgree | src/lib/cd-registry.ts:87-96 | for every owner and name, the plain, scp and URL forms, with .git behind them or not, have the key owner/name in lower case |
| CdRegistry.KeyIsItsOwnKey | src/lib/cd-registry.ts:88-96 | a key normalises to itself if and only if it has no git@host: in front, no .git at the end and no blank at either end |
| CdRegistry.TwiceGitIsUnsettled | src/lib/cd-registry.ts:88-96 | a reference whose key does not |
| CdRegistry.ParseCdRegistry | src/lib/cd-registry.ts:99-141 | keeps the first entry of each key, cleaned |
| CdRegistry.ValidateCdEntryInput | src/lib/cd-registry.ts:235-303 | reports for each field the reason the rules give it, and accepts exactly when there is none |
| CdRegistry.AcceptedTriple | src/lib/cd-registry.ts:284-301 | an accepted input with a cross-account field has all three and the parse honours them |
| CdRegistry.AcceptedFields | src/lib/cd-registry.ts:306-317 | an upsert stores each value trimmed, clears blanks and keeps what is absent |
| CdRegistry.UpsertThenFind | src/lib/cd-registry.ts:306-317 | finding under any form of the reference gives the merged entry, and every other repo what it gave before |
| CdRegistry.UpsertThenParse | src/lib/cd-registry.ts:306-317 | parsing the result changes nothing if and only if the key is its own key and the stored cross-account fields were blanked together or not at all |
| CdRegistry.LoneBlankIsAccepted | src/lib/cd-registry.ts:284-301 | an input that blanks the account alone is accepted all the same |
| CdRegistry.RemoveThenFind | src/lib/cd-registry.ts:319-322 | removing a repo leaves every other one |
| SessionSweep.DueExactlyFrom | deploy/session-reaper/handler.py:288-312 | a release is decided if and only if the clock is past the session's time, which depends on its run's phase and end, its own age, the lane and the graces, and raises exactly when that time cannot be read |
| SessionSweep.DueStaysDue | deploy/session-reaper/handler.py:288-312 | for fixed rows, what is due stays due for the same reason |
| SessionSweep.SweepRows | deploy/session-reaper/handler.py:329-383 | the loop's counters are those of the rows' outcomes, and it raises exactly when the pass does |
| SessionSweep.BudgetsBalance | deploy/session-reaper/handler.py:343-372 | each row gets one outcome, and what a lane was charged plus what it has left is its budget |
| SessionSweep.ReleasesAreDue | deploy/session-reaper/handler.py:352-380 | no release is started after a deferral, in a dry run, or for a row that is not due in that lane |
| SessionSweep.RaisesExactly | deploy/session-reaper/handler.py:91-98 | the sweep ends early if and only if some row's decision subtracts a time without an offset |
| SessionSweep.LaneDrains | deploy/session-reaper/handler.py:329-383 | with releases granted, k sweeps leave n due sessions of a lane with n less k budgets, in any scan orders and among any rows that are passed over |
| ImportClosure.ImportClosureGaps | deploy/pipeline/plan-surfaces.py:204-233 | reports exactly the modules reachable from a listed one, through walked ones, that the zip lacks, each once |
| ImportClosure.HarnessImportClosureGaps | deploy/pipeline/plan-surfaces.py:253-286 | reports exactly the non-test modules the script reaches without passing a test and no path covers, each once |

## Left out

- TurnProtocol.CleanIsExact: assumes an id that has no record and no directory; with every directory name taken no further turn could be claimed.
- TurnProtocol.Vm.DropStale: the pops of one sweep are one step, and a dictionary that changes size under a running iteration, which raises in Python, is not modelled.
- Synchronous and streaming turns, which make no claim, and the CLI processes themselves: a runner is its phases, its two flags and its lock.
- MirrorLock.ExclusionWithStealing: clocks of different microVMs are one clock, so skew between them is not modelled.
- Publication.NeverHalfBuilt: that a build tool exiting with 0 wrote a whole build is taken as given; an eviction of another build's own directory, which the sweep does not spare, is excluded because one handler at a time runs on a VM; a tool that writes on through a handle after its path was renamed, and the git settings written into a mirror after its rename, are not modelled.
- Selection.SweepDepsLocal: takes its entries in the order the sort gave; ties of equal mtime are in any order.
- The candidate filter of the artifact harvest (paths, secrets, size of a single file): direct tests on one path.
- Rollout.Sanitize: JSON decoding is a parameter that says what a line is; the reads that raise are one case.
- ThreadBinding.OneModelPerThread: needs rollouts that can be read; a thread whose rollout is not on the volume resumes under any model, as the code says.
- BashHeredocs.StripBashComments: which lines continue a YAML scalar is a parameter, as it is in the code; classify_yaml_lines is not modelled.
- WordWalker.WordIsRead: what a text that no word of the grammar spells is read as, an unclosed quote for one, is only what ConsumeWord says.
- StatementWalk.ScanStatements: extract_reads is a parameter that gives the names read in a range.
- Stack parsing, contract loading and the parity rules: direct set filters.
- ModelRegistry.ParseRegistry: a row's region, endpoint, api, context window and price digits are reduced to whether they are usable; unreadable documents and S3 are outside.
- ModelRouting.NeverQuarantined: a tier or legacy value that is not text resolves to nothing, where the code may also raise.
- CodexConfig.MergeIntoNothing: a file is a sequence of characters; TOML itself is not modelled.
- SseRelay.EndToEnd: characters stand for bytes, decoding for the identity; the bodies that are not SSE are given by what the buffered path makes of them; cancellation is not modelled.
- CdRegistry.ValidateCdEntryInput: the decoded forms of a deployDoc are one predicate; lower-casing is that of ASCII; a body that is not an object is refused before this point.
- CdRegistry.UpsertThenFind: the locale's order is any comparison, and the registry's version number is not modelled.
- SessionSweep.LaneDrains: covers series of sweeps in which no further session becomes due; one that did would share the budget.
- The reaper's stream path and the release primitives: guards around one service call each.
- ImportClosure.ImportClosureGaps: which modules a file imports is given, so how a specifier resolves against its directory is not modelled; coverage lists and `plan` are direct filters.
- AWS clients, HTTP routing, React components, deploy and probe scripts, and the test drivers.
