# Verified models of AILA's stateful components

This Dafny project models six components of AILA that carry state, a protocol or a text format, and
proves what they promise over all inputs and all runs.

- **SSE client** (`frontend/src/api/sse.ts`). `SseFormat` holds the line and field rules of
  `text/event-stream` and, beside them, an independent batch reading of section 9.2.6 of WHATWG HTML
  with the standard's own buffers. `SseClientParser` is the parser object, `SsePrint` a printer,
  `SseReconnect` the backoff loop, `SseConnect` one connection, `SseResume` the effect of a cut at any
  character, `SseDelivery` whole sessions against an append-only server log.
- **Agent-link installer** (`scripts/setup_agent_links.py`). `AgentMerge` is the recursive directory
  merge on trees of files and directories, `AgentLinks` the installer over tools and categories, with
  tool directories of their own and tool directories that are the canonical one. `AgentMergeProofs` and
  `AgentLinksProofs` are about one merge and one install, `AgentRuns` about whole runs: conservation,
  frame, fixpoint. `AgentLosses` says exactly which runs lose a file, `AgentDryRuns` when a dry run
  predicts the live one, `AgentOutcomes` what is reported, achieved and left behind. `Names` gives the order of a sorted listing.
- **Auth revocation cache and auth check** (`src/aila/api/auth_cache.py`, `src/aila/api/auth.py`).
  `AuthCache` is the cache object, `AuthCacheProofs` its histories, `AuthCheck` requests as a state
  machine in which checks, database reads, stores, revocations and invalidations interleave, `AuthStale`
  the exact condition for the rejection of a valid key.
- **Window host** (`frontend/src/App.tsx`). `WindowHost` holds the handlers, `WindowLaws` what each
  does to the list and the focus, `WindowHostProofs` the invariant over all their runs and the cycle
  key.
- **Fuzz reporter** (`tools/aila_fuzz_reporter`). `FuzzReporter` is the durable seen-set over file
  operations, failed saves and crashes; `StackCanon` is the canonical form of a stack trace,
  `StackTokens` the token of each kind of line, `StackTraces` the traces that share a form.

`Common` holds the definitions that several of them share.

Classes and loops are methods proved against specification functions; the promises are lemmas about
those functions. Times in the SSE client are integer milliseconds, those of the cache are reals.

## Where the code and its documentation differ

- The header comment of `sse.ts` names a limit of 10 connects per minute. The backoff allows 11 in one
  minute, and only in a minute that holds the first connection and its 1 s retry (`RateBound`). It does
  so exactly when the first ten healthy times and sleeps add up to less than a minute
  (`OutcomesExceedIff`; `ElevenInAMinute` is such a run).
- `vulnerability.ts` says that a dropped connection neither loses nor repeats events. Nothing is
  repeated, but a cut between an event's `id:` line and its blank line loses that event, because the
  resume point is the parser's id field and not the id of the last dispatched event. Delivery is
  gap-free if and only if no connection is cut there (`Delivery`, `CutAfterIdLine`). In the terms of the
  standard, the field is the id buffer and not the last event ID (`IncrementalIsBatch`).
- `auth_cache.py` speaks of up to 30 s between a revocation and its enforcement. The check reads the
  database even on a cached "valid", so a revocation acts at once (`RevokedIsNotAccepted`). The delay
  exists in the other direction: a valid key can still be rejected exactly when the cache answers
  "revoked" or some request has yet to store that it read the key as not valid (`RejectedIff`). The
  routers invalidate after a deactivation or revocation only (`src/aila/api/routers/users.py:748-752`,
  `src/aila/api/routers/auth.py:411-414`), so a reactivated key is rejected for up to the time to live
  with no race at all (`ReactivatedIsRejected`), and an invalidation can be overtaken by a late store
  (`InvalidationIsOvertakenIff`, `InvalidationCanBeOvertaken`).
- The installer says that it never clobbers. When a tool's category directory is the canonical one, by
  the tool name `.agents`, by a link in the tool's place, or by a link in the canonical category's place,
  source and destination are the same directory and every file in it is removed as a duplicate of itself.
  An install keeps every file if and only if the two directories differ or the category holds no file
  (`InstallConservesIff`); a live run keeps every file if and only if no step of it is such an install
  (`RunKeepsFilesIff`); a second run then raises (`OntoBlocks`, `RunTwiceIsRunOnce`). An entry that is a
  link to its own target does the same to that target (`LinkedEntryConservesIff`).
- `--dry-run` previews the whole command, but installs of the live run see what earlier ones have moved:
  with two tools that hold different files of one name the dry run reports two migrations and the live
  run a conflict (`TwoSourcesDisagree`). With at most one directory to merge in each category the dry run
  is right (`DryRunPredictsRun`).
- The installer says that a tool's directory with conflicts is left in place. Only its conflicting
  entries are: it reads as before if and only if every entry conflicts (`SkipKeepsReadingIff`;
  `PartialMove` shows a file that has moved away).
- The stack hash joins crash type and tokens with a bar and does not escape bars in them, so different
  inputs can share a hash, exactly when crash type and first five tokens agree after splitting at bars
  (`CollideIff`; `BarJoinsFrames`, `BarJoinsType`).

## Model

| member | source | states |
|---|---|---|
| SseClientParser.SseParser.constructor | frontend/src/api/sse.ts:60-68 | a new parser holds nothing but the given id |
| SseClientParser.SseParser.Feed | frontend/src/api/sse.ts:71-85 | the loop returns every message that the buffer and the chunk decide, and keeps the undecided tail |
| SseClientParser.SseParser.ProcessOne | frontend/src/api/sse.ts:87-111 | one line changes the fields and gives at most one message as the field rules say |
| SseFormat.ChunkingInvariance | frontend/src/api/sse.ts:71-85 | from every parser state, feeding a and then b is feeding a + b: same messages, same state |
| SseFormat.FragmentationInvariance | frontend/src/api/sse.ts:71-85 | any list of chunks gives what their concatenation gives in one chunk |
| SseFormat.SplittersAgree | frontend/src/api/sse.ts:74-82 | splitting with look-ahead finds the lines of a scanner without look-ahead, up to one undecided CR |
| SseFormat.FieldRulesAgree | frontend/src/api/sse.ts:87-111 | the list of data lines and the mutated id give the messages of the standard's data, event type and id buffers |
| SseFormat.IncrementalIsBatch | frontend/src/api/sse.ts:59-112 | for every stream and fragmentation the messages are those of the batch interpretation of WHATWG HTML 9.2.6; one trailing CR can hold back one message at most; the parser's id is the id buffer |
| SsePrint.FieldGrammar | frontend/src/api/sse.ts:103-106 | name and value of a line: no colon gives an empty value, one leading space of the value is dropped, later colons belong to it |
| SsePrint.RoundTrip | frontend/src/api/sse.ts:71-111 | printing any messages with LF, CRLF or CR and feeding them in any fragmentation returns them (with CR, after any one further character) |
| SseReconnect.ReconnectLoop | frontend/src/api/sse.ts:217-237 | after each retry the loop sleeps the longer of the closed-form delay and the server's minimum; it goes on exactly after retries that are not aborted, and the exit says how the last turn ended |
| SseReconnect.BackoffDoubles | frontend/src/api/sse.ts:55-56 | min(1000 * 2^k, 30000) doubles up to the cap and stays within 1000 and 30000 |
| SseReconnect.StreakLaw | frontend/src/api/sse.ts:231 | the delay of a turn counts the waits back to the last connection that was healthy for 15 s, or to the first one |
| SseReconnect.RetryAfterIsKept | frontend/src/api/sse.ts:9-11 | in every run, connections are apart by the time the server asked for, and by the backoff |
| SseReconnect.MinuteBetween | frontend/src/api/sse.ts:217-236 | eleven further connections take a minute in every run, and ten do after the first connection |
| SseReconnect.RateBound | frontend/src/api/sse.ts:4-9 | no half-open minute of any run holds more than 11 connections, nor more than 10 unless it holds the first connection and its retry |
| SseReconnect.RateExceededIff | frontend/src/api/sse.ts:7-9 | in a given run, some minute holds more than ten connections iff the first eleven fall in less than a minute |
| SseReconnect.OutcomesExceedIff | frontend/src/api/sse.ts:217-236 | some timing of a sequence of retries exceeds ten a minute iff its first ten healthy times and sleeps add up to less than a minute |
| SseReconnect.ElevenInAMinute | frontend/src/api/sse.ts:7-9 | a run with eleven connections in its first minute, so the bound is reached |
| SseConnect.SseStream.ConnectOnce | frontend/src/api/sse.ts:165-215 | which response gives which outcome and error text, what the open callback is told, when the user is signed out, what is delivered, and where the resume point ends |
| SseConnect.StopLaw | frontend/src/api/sse.ts:201-209 | a stream stops iff a stop event is configured and some message has that event; then the first such message is the last delivered and gives the resume point |
| SseResume.FrameStops | frontend/src/api/sse.ts:204-207 | a connection stops iff one of its whole frames carries the stop event, at the first such frame |
| SseConnect.SseStream.ReadStream | frontend/src/api/sse.ts:194-215 | the chunk loop delivers every parsed message up to the first stop event and leaves the resume point of that event or of the parser |
| SseConnect.SseStream.Deliver | frontend/src/api/sse.ts:201-208 | the messages of one chunk are handed over up to and including the first stop event |
| SseResume.StreamReads | frontend/src/api/sse.ts:87-111 | reading any number of a stream's lines gives the messages of its whole frames, and the id of the cut frame once its id line is read |
| SseResume.ConnectionEffect | frontend/src/api/sse.ts:196-214 | a connection cut at any character delivers its whole frames up to a stop event; the resume point is past the last delivered event, or past the next when only its id line arrived |
| SseDelivery.Delivery | frontend/src/api/sse.ts:162-215 | over any cut connections: delivered log events strictly increase, delivered and lost ones are exactly those up to the resume point, and delivery is gap-free iff no cut fell inside an event |
| SseDelivery.EachStartsAgain | frontend/src/api/sse.ts:167 | without a resume parameter every connection delivers the log from its first event on, where `Delivery`, with one, repeats nothing |
| SseDelivery.CutAfterIdLine | frontend/src/api/vulnerability.ts:596-598 | for every log, a connection cut right after the first id line loses that event |
| AgentMerge.MergeDir | scripts/setup_agent_links.py:102-136 | the loop leaves the specified leftovers, destination and conflict list; a dry run changes neither directory and reports the same conflicts |
| AgentMerge.MergeEntry | scripts/setup_agent_links.py:120-135 | an entry whose target exists: duplicate, divergence, nested merge or mismatch |
| AgentMerge.MergeOnto | scripts/setup_agent_links.py:112-136 | a live merge of a directory onto itself empties it without a conflict |
| AgentMerge.MergeLinkedEntry | scripts/setup_agent_links.py:120-134 | an entry that is a link to its own target: a file's link is removed, a directory is emptied and the link stays, and neither is reported |
| AgentMergeProofs.MergeConserves | scripts/setup_agent_links.py:105-108 | at every path, leftovers and destination together hold what source and destination held; the destination keeps all of its own |
| AgentMergeProofs.NoConflictsIffDrained | scripts/setup_agent_links.py:105-108 | no conflicts iff nothing stays in the source at any depth |
| AgentMergeProofs.ConflictsAreClashes | scripts/setup_agent_links.py:120-135 | the conflict list names exactly the paths at which both trees hold something and it differs, with the right kind |
| AgentMergeProofs.ConflictsInOrder | scripts/setup_agent_links.py:112 | the conflicts are reported in the order of a sorted walk, each path once |
| AgentMergeProofs.LeftoversAreStuck | scripts/setup_agent_links.py:112-136 | whatever a merge leaves conflicts with the destination it made |
| AgentMergeProofs.MergeGrows | scripts/setup_agent_links.py:105-106 | the destination only grows |
| AgentMergeProofs.StuckMergeDoesNothing | scripts/setup_agent_links.py:112-136 | merging leftovers again moves nothing |
| AgentMergeProofs.LinkedEntryConservesIff | scripts/setup_agent_links.py:127-134 | such an entry keeps its target's files iff the target is no directory with a file in it |
| AgentLinks.Workspace.InstallCategory | scripts/setup_agent_links.py:139-174 | status and repository after one install, dry or live, with every skip branch, the exception, and directories that are the canonical one |
| AgentLinks.Workspace.RunInstaller | scripts/setup_agent_links.py:206-225 | the loops over categories and tools, for any tools, produce the specified repository, statuses and exception |
| AgentLinksProofs.DryRunPredicts | scripts/setup_agent_links.py:157-174 | for one tool and category a dry run reports the live status and conflicts and changes nothing else; the "not empty after merge" branch is never taken |
| AgentOutcomes.InstallReports | scripts/setup_agent_links.py:145-174 | which status is reported for which slot, in both modes |
| AgentOutcomes.DirReports | scripts/setup_agent_links.py:160-171 | a directory migrates iff nothing would stay in it, and otherwise the conflicts of the two trees are reported |
| AgentOutcomes.DryRunLeaves | scripts/setup_agent_links.py:210-224 | a whole dry run changes nothing but empty canonical directories: none if no tool takes part, all of the run if one does and nothing raises |
| AgentOutcomes.RunAchieves | scripts/setup_agent_links.py:206-225 | after a live run every pair of a tool that takes part is the right link, a file as before, or a directory of conflicting entries only; a missing tool stays missing unless to be created |
| AgentOutcomes.RunReportsAll | scripts/setup_agent_links.py:213-224 | a live run makes one report for every pair of a tool that takes part |
| AgentOutcomes.RunToolsJoins | scripts/setup_agent_links.py:213-224 | a run over two lists of tools is the first and then, unless it raised, the second |
| AgentLinksProofs.InstallOutcome | scripts/setup_agent_links.py:139-174 | after a live install from a directory of the tool's own the slot is the right link iff the status is not a skip |
| AgentLinksProofs.InstallFrame | scripts/setup_agent_links.py:30-32 | an install touches its own slot and canonical directory only |
| AgentLinksProofs.MigratedIsTransparent | scripts/setup_agent_links.py:160-171 | after "migrated" from a directory of the tool's own every path reads through the link as it read before |
| AgentLinksProofs.SkipKeepsReadingIff | scripts/setup_agent_links.py:160-164 | after a skip for conflicts every path of the tool reads as before iff nothing has moved, iff every entry conflicts |
| AgentLinksProofs.PartialMove | scripts/setup_agent_links.py:114-119 | a file next to a conflicting one has left the tool's directory, which is not linked |
| AgentRuns.RunConserves | scripts/setup_agent_links.py:206-225 | a whole live run loses nothing, for any trees, categories and tools with directories of their own; directories that became links read as before |
| AgentRuns.RunFrame | scripts/setup_agent_links.py:29-32 | a run, dry or live, changes no other tool and no other category, and no file that stands in a category's place |
| AgentRuns.InstallConservesIff | scripts/setup_agent_links.py:139-171 | an install keeps every file iff source and destination are different directories or the category holds no file (or it raises) |
| AgentRuns.OntoBlocks | scripts/setup_agent_links.py:142-170 | after an install onto itself, any install of the category and any live run with it raises |
| AgentRuns.RunTwiceIsRunOnce | scripts/setup_agent_links.py:11-25 | a second run with the same arguments changes nothing, for any tools; it raises iff a category was a link to itself or some directory of the run is the canonical one |
| AgentLosses.RunKeepsFilesIff | scripts/setup_agent_links.py:206-225 | a live run, for any tools, keeps every file iff it is blocked from the start or no step of it merges a canonical directory that holds a file onto itself |
| AgentDryRuns.DryRunPredictsRun | scripts/setup_agent_links.py:193-197 | with own directories, no repeated names and one directory to merge in each category, a dry run reports what the live run would |
| AgentDryRuns.TwoSourcesDisagree | scripts/setup_agent_links.py:213-224 | with two tools that hold different files of one name, the dry run reports two migrations and the live run a conflict |
| AuthCache.AuthRevocationCache.constructor | src/aila/api/auth_cache.py:27-35 | a new cache is empty |
| AuthCache.AuthRevocationCache.CheckKey | src/aila/api/auth_cache.py:37-55 | answers a fresh entry, and removes an expired one |
| AuthCache.AuthRevocationCache.StoreKey | src/aila/api/auth_cache.py:57-74 | stores the entry, after giving up the oldest tenth when the cache is full |
| AuthCache.CheckLaw | src/aila/api/auth_cache.py:46-55 | a check removes an expired entry of its key and nothing else, and answers a fresh entry only |
| AuthCache.EvictCountLaw | src/aila/api/auth_cache.py:67 | an eviction takes a tenth of the maximum, rounded down, but at least one |
| AuthCache.AuthRevocationCache.InvalidateKey | src/aila/api/auth_cache.py:76-83 | removes the key and nothing else |
| AuthCache.AuthRevocationCache.ClearAll | src/aila/api/auth_cache.py:85-88 | removes everything |
| AuthCache.OldestFirst | src/aila/api/auth_cache.py:68-71 | lists every key once in the order of the timestamps |
| AuthCacheProofs.IdealIsLastStore | src/aila/api/auth_cache.py:57-88 | the unbounded map holds exactly each key's last store that nothing dropped since |
| AuthCacheProofs.AnswersAreSound | src/aila/api/auth_cache.py:37-55 | an answer is the key's last store, younger than the TTL, with no later invalidate or clear |
| AuthCacheProofs.FreshIsAnswered | src/aila/api/auth_cache.py:37-74 | a standing store younger than the TTL is answered while fewer other keys were stored since than an eviction keeps |
| AuthCacheProofs.SizeBound | src/aila/api/auth_cache.py:24 | the size never exceeds max(1, max_size) |
| AuthCacheProofs.EvictedOnlyWhenOld | src/aila/api/auth_cache.py:65-73 | with increasing timestamps, a key is evicted only after max_size - max(1, max_size // 10) other keys were stored since |
| AuthCheck.Authenticate | src/aila/api/auth.py:335-358 | one request alone: rejected by a fresh "revoked" entry, otherwise decided by the database; a miss stores what was read |
| AuthCheck.AloneIsPath | src/aila/api/auth.py:335-358 | what the code of one request does is a run of the state machine |
| AuthCheck.AuthenticatedLaw | src/aila/api/auth.py:335-358 | one request alone is rejected by the cache exactly on a fresh "revoked" entry, and otherwise accepted exactly when the key is valid |
| AuthCheck.AcceptanceRestsOnOwnRead | src/aila/api/auth.py:293-331 | under every interleaving an accepted request has itself read its key as valid |
| AuthCheck.DecisionRestsOnOwnRead | src/aila/api/auth.py:303-313 | every request decided after its read is decided as that read says |
| AuthCheck.RevokedIsNotAccepted | src/aila/api/auth_cache.py:3-7 | a key that is not valid from a request's arrival on is not accepted by it |
| AuthCheck.CacheRejectionRestsOnRead | src/aila/api/auth.py:629-645 | a cache rejection rests on an entry stored less than the TTL earlier, not invalidated since, by a request that read the key as not valid |
| AuthStale.RejectedIff | src/aila/api/auth.py:293-308 | from any state in which a key is valid, the cache can go on to reject it while it stays valid iff it still answers "revoked" or a late store of "not valid" is pending |
| AuthStale.InvalidationIsOvertakenIff | src/aila/api/auth_cache.py:76-88 | in any run, an invalidation or clear leaves a valid key open to a rejection iff some request has read it as not valid and not stored that yet |
| AuthStale.ReactivatedIsRejected | src/aila/api/routers/users.py:748-752 | a run in which a reactivated key is rejected at any time within the TTL, without a race |
| AuthStale.InvalidationCanBeOvertaken | src/aila/api/auth.py:338-351 | a run in which a late store overtakes the invalidation of a revocation, so that the reactivated key is rejected |
| WindowHost.Host.constructor | frontend/src/App.tsx:75-77 | no windows, no focus |
| WindowHost.Host.FocusWindow | frontend/src/App.tsx:126-133 | moves the window to the front, if it exists, and focuses the id |
| WindowHost.Host.OnCycleKey | frontend/src/App.tsx:142-150 | focuses the next open window, wrapping, when there are two or more |
| WindowHost.Host.OpenWindow | frontend/src/App.tsx:158-172 | updates the focused page in place or stacks and focuses a new window |
| WindowHost.Host.CloseWindow | frontend/src/App.tsx:268-275 | removes the window and moves a lost focus to the topmost open one |
| WindowHost.Host.Minimize | frontend/src/App.tsx:277-287 | minimises or restores, and moves the focus |
| WindowHost.Host.FlipWindow | frontend/src/App.tsx:289 | flips the window's fullscreen flag and changes nothing else |
| WindowHost.Host.Navigate | frontend/src/App.tsx:290 | sets the window's section and changes nothing else |
| WindowLaws.FocusLaw | frontend/src/App.tsx:126-133 | focusing moves one window to the front and keeps the order of the others |
| WindowLaws.OpenLaw | frontend/src/App.tsx:158-172 | opening updates the focused window in place iff it already shows the surface, and otherwise adds one window on top of all the others |
| WindowLaws.CloseLaw | frontend/src/App.tsx:268-275 | closing removes one window and keeps the others; the focus moves only if it was there, to the last open window that remains, or to none |
| WindowLaws.MinimizeLaw | frontend/src/App.tsx:277-287 | minimising and restoring set one flag; the focus goes to a restored window, and from a minimised one to the last window still open, or to none |
| WindowLaws.CycleNeedsTwo | frontend/src/App.tsx:145 | the cycle key does nothing while fewer than two windows are open |
| WindowLaws.DecorateLaw | frontend/src/App.tsx:289-290 | toggling and navigating change one field of one window |
| WindowLaws.ActivePageLaw | frontend/src/App.tsx:90-91 | the page shown is the last open one that is no floater |
| WindowHostProofs.StepKeepsInv | frontend/src/App.tsx:126-290 | a handler call keeps unique ids and a focus on an open window (none iff none is open) iff it focuses an open window or restores an existing one, where it does either |
| WindowHostProofs.ReachableInv | frontend/src/App.tsx:126-290 | the invariant holds after every guarded sequence of handler calls |
| WindowHostProofs.ReachableFromInitial | frontend/src/App.tsx:75-77 | so it holds in every state reached from no windows |
| WindowHostProofs.TopOpenIsLast | frontend/src/App.tsx:272-281 | the fallback focus is the last open window of the stack |
| WindowHostProofs.FocusRaises | frontend/src/App.tsx:127-131 | focusing an open window makes it the last of the open ones and keeps the others' order |
| WindowHostProofs.CycleVisitsEachOnce | frontend/src/App.tsx:135-150 | n presses with n open windows focus each once, whatever is minimised; they restore the order iff they start from the topmost |
| WindowHostProofs.OpenShows | frontend/src/App.tsx:155-172 | after opening, the focused window is open and shows what was asked for |
| WindowHostProofs.OpenTwice | frontend/src/App.tsx:155-157 | opening the same surface twice stacks no duplicate, iff it is no floater or was already the focused page |
| WindowHostProofs.RestoreShowsPage | frontend/src/App.tsx:284-286 | a restored page is the page shown iff no open page lies above it |
| FuzzReporter.Reporter.constructor | tools/aila_fuzz_reporter/__main__.py:233-235 | a process starts with the loaded set |
| FuzzReporter.Reporter.Iterate | tools/aila_fuzz_reporter/__main__.py:261-277 | one pass posts and records as specified and saves only when the set grew |
| FuzzReporter.PassIsExact | tools/aila_fuzz_reporter/__main__.py:261-269 | a pass adds exactly the acknowledged keys, posts no seen or already acknowledged key, and tries every other one |
| FuzzReporter.PostedInOrder | tools/aila_fuzz_reporter/__main__.py:262-266 | the posts are crashes of the pass, in their order |
| FuzzReporter.LoadLaw | tools/aila_fuzz_reporter/__main__.py:108-125 | what loading makes of a missing, unreadable, malformed or good file |
| FuzzReporter.PayloadLaw | tools/aila_fuzz_reporter/__main__.py:138-143 | a save writes version 1 and the sorted keys |
| FuzzReporter.SaveLaw | tools/aila_fuzz_reporter/__main__.py:135-147 | a save that gets through leaves a file that loads as the set; one that does not leaves the state file alone |
| FuzzReporter.LoadAfterSave | tools/aila_fuzz_reporter/__main__.py:99-147 | loading what was saved is the identity on sets of strings |
| FuzzReporter.Reporter.Save | tools/aila_fuzz_reporter/__main__.py:128-147 | a save writes the temporary file and moves it, up to where it fails |
| FuzzReporter.SaveIsAtomic | tools/aila_fuzz_reporter/__main__.py:128-147 | from any disk, wherever the writes and renames of saves are cut, the state file is the old one, or the new set once a rename is done |
| FuzzReporter.IterationIsRun | tools/aila_fuzz_reporter/__main__.py:261-277 | one turn of the loop is a run of reports, one for each POST, and of file operations |
| FuzzReporter.StepKeepsIntact | tools/aila_fuzz_reporter/__main__.py:251-287 | from any disk, each step keeps what is durable inside the seen-set, a complete state file complete, and the temporary file right when it is about to be renamed; only a rename changes what is durable |
| FuzzReporter.RunComplete | tools/aila_fuzz_reporter/__main__.py:128-147 | a run that starts with a complete state file or none never leaves anything else |
| FuzzReporter.PostedAgainOnlyAfterLoss | tools/aila_fuzz_reporter/__main__.py:228-235 | from any disk, an acknowledged key is posted again only if its process died without a completed save since |
| StackCanon.CanonicalString | tools/aila_fuzz_reporter/base.py:249-274 | the loop with its early stop builds the canonical string |
| StackCanon.MaskRemovesAddresses | tools/aila_fuzz_reporter/base.py:243 | the rewritten text holds no address |
| StackCanon.MaskIdempotent | tools/aila_fuzz_reporter/base.py:269 | the rewrite is idempotent |
| StackCanon.MaskForgetsAddress | tools/aila_fuzz_reporter/base.py:269 | an address after a neutral character is rewritten whatever it is, apart from the text around it |
| StackCanon.LaterLinesIgnored | tools/aila_fuzz_reporter/base.py:272-273 | lines after the fifth frame do not change the form |
| StackCanon.FrameToken | tools/aila_fuzz_reporter/base.py:244-259 | the token of a frame line depends on its symbol and module, not on number, address, spacing or padding |
| StackTokens.FramesAreShown | tools/aila_fuzz_reporter/base.py:244-246 | only lines of the frame pattern parse as frames, into the parts that the pattern names |
| StackTokens.ShownAreFrames | tools/aila_fuzz_reporter/base.py:244-246 | all lines of the pattern do, also with text after the module |
| StackTokens.InToken | tools/aila_fuzz_reporter/base.py:260-264 | a line that is no frame gives the symbol after its first " in ", without argument list and padding |
| StackTokens.NoToken | tools/aila_fuzz_reporter/base.py:265-268 | a line with a space and without " in " that is no frame gives no token |
| StackTraces.WordToken | tools/aila_fuzz_reporter/base.py:265-266 | a line that is one word gives that word |
| StackTokens.TokensLaw | tools/aila_fuzz_reporter/base.py:251-271 | the tokens of a trace are those of its lines, without the empty ones, in order |
| StackTokens.FirstFiveLaw | tools/aila_fuzz_reporter/base.py:272-273 | the first five tokens count, or all if there are fewer |
| StackTokens.CanonicalLaw | tools/aila_fuzz_reporter/base.py:274 | the form is the crash type and these tokens with a bar before each |
| StackTraces.SameTraceSameForm | tools/aila_fuzz_reporter/base.py:249-274 | two traces that agree line by line up to frame numbers, addresses, spacing, padding, blank lines and whatever follows five frames have the same form |
| StackTraces.CollideIff | tools/aila_fuzz_reporter/base.py:274 | two traces with their crash types share a form iff crash type and first five tokens (one empty text for none) agree after splitting at bars |
| StackTraces.SameFormIff | tools/aila_fuzz_reporter/base.py:274 | for one crash type, two traces share a form iff their first five tokens agree after splitting at bars |
| StackTraces.NoBarsNoCollision | tools/aila_fuzz_reporter/base.py:274 | without bars in the tokens the form tells the first five tokens apart |
| StackTraces.BarJoinsFrames | tools/aila_fuzz_reporter/base.py:274 | two words as two frames, and joined by a bar as one frame, share a form |
| StackTraces.BarJoinsType | tools/aila_fuzz_reporter/base.py:274 | the tail of a crash type after a bar and a first frame share a form |

## Left out

- SseReconnect.RateBound: assumes a clock that does not go back and timers that wait at least as long as asked; the browser's 32-bit limit on timer lengths is not modelled.
- SseConnect.SseStream.ConnectOnce: the parsing of a Retry-After header is not modelled, its milliseconds are a parameter; nor are the connection states shown to the interface.
- SseDelivery.Delivery: the server is only assumed to replay its log strictly after the given id, with LF line endings, one data line a frame and the id line first.
- SseFormat.IncrementalIsBatch: the parser starts with the hook's resume id, so the reference starts its id buffer there too; decoding bytes to text and the byte order mark are not modelled.
- AgentMerge.MergeDir: works on directory values, so nested directories are not updated in place. The trees hold no links, so results on whole trees and runs are about categories without links inside; for one entry that is a link to its own target see `MergeLinkedEntry`. I/O errors and case-insensitive file systems are not modelled.
- AgentLinks.Workspace.InstallCategory: tool and category names are plain names, a canonical path is a directory, absent, a link to itself, or a link to one tool's category directory, and a tool's directory is its own, absent, or a link to the canonical home, not to another tool. A link stands for what it resolves to; that a run can change this by replacing a link in the middle of a chain is not modelled.
- AgentDryRuns.DryRunPredictsRun: its condition is sufficient; two directories in one category without a clash are predicted too, which is not stated.
- AuthCache.AuthRevocationCache.StoreKey: entries with equal timestamps may be evicted in any order, where the code takes the dictionary's.
- AuthCheck.Authenticate: token decoding, roles and the two error messages are left out; the database answer is a parameter.
- AuthStale.RejectedIff: the time to live is positive, and clock readings are only bounded from below.
- WindowHost.Host.OpenWindow: the module name, the page registry and the label clean-up before the call are left out.
- FuzzReporter.LoadAfterSave: JSON is modelled by the value it encodes, not as text.
- FuzzReporter.SaveIsAtomic: one process a campaign at a time, and a rename that the file system makes atomic and durable.
- FuzzReporter.Reporter.Iterate: telemetry, sleeping and signals are left out; the server's answers are a parameter.
- StackCanon.CanonicalString: lines are given, whitespace and digits are the ASCII ones, and the digest is not modelled.
- The HTTP retry loop of the reporter, the bounded upload readers, the persona map codec, the narrowing of payloads in `useScanEvents`, and the default directories are short and independent of the components above.
- React rendering, state batching and stale closures, `fetch`, Redis, SQL sessions, JWT signing: library behaviour.
