# A verified model of the pipeline's state machines

This project models the parts of the pipeline in which several ticks, threads or processes share state, and proves
what they promise over whole runs. There is one module per component; where the program updates a record, a table, a
buffer or a file in place, the model is a class whose methods update the same fields, and each method is tied to a
function that says what it computes. The theorems are about those functions and about runs of them.

| file | component |
|---|---|
| `text.dfy`, `options.dfy` | Python's strip, find and decimal text; optional values |
| `feedback.dfy` | the review feedback a CI failure is merged into |
| `merge_gate.dfy`, `merge_outcomes.dfy`, `merge_runs.dfy`, `merge_history.dfy`, `merge_waits.dfy` | the merge gate: one tick of a story in place; the same tick told by its inputs alone; what one tick guarantees; whole histories with other actors in between; waiting on CI over a history |
| `advance_queue.dfy`, `advance_runtime.dfy` | the advance queue and its interleavings; the queue at work with its history, the reconcile sweep and the turns of a slot |
| `framing.dfy`, `advance_workers.dfy`, `advance_worker.dfy` | lines over a byte stream; worker slots with their pipes; the worker's request loop |
| `audit_chain.dfy`, `audit_anchor.dfy`, `anchor_verdict.dfy` | the hash-chained audit stream; its external anchor log; what a clean verdict says about the past |
| `dispatch.dfy`, `dispatch_tick.dfy` | dispatch around a released plan lock, as a step-by-step interleaving; the dispatch loop of one tick |
| `login_rate.dfy`, `login_sessions.dfy`, `login_runs.dfy` | the login rate limiter; pending logins and sessions; runs over both tables |
| `authority.dfy`, `authority_laws.dfy` | the layered authority matrix and what folding guarantees |
| `jwks.dfy` | the key document cache |
| `transcript.dfy` | trimming a review transcript |
| `registry.dfy` | the model registry memo |

What the model takes as given: the answers of CI, git, the provider, the clock and the job runner are inputs, and every
theorem holds for all of them. Locks exclude. Where two audit streams are compared, no record of one has the digest of
a different record of the other (`NoCollision`); `AnchorVerdicts.StreamsToCompare` exhibits streams that meet all the
hypotheses. A file is read in two ways: the verification of a chain breaks lines at every separator `splitlines` knows,
the comparison with an anchor at newlines only, so a run of lines may reach the latter as one text; all that is assumed
of such texts is that two or more whole records in a row are no JSON document (`AnchorVerdicts.RecordsDoNotJoin`). The
merge history assumes that other actors leave the gate's counters, pending commit, rerun flag and job handle alone, do
not take a story with a running job away from the gate and do not reopen a merged one (`OtherActor`); they may put a
failed story back to work, as the triage sweep at the start of a tick does. It also assumes that every tick writes the
manifest: an exception in a later story of the same tick skips that write, as `MergeGate.AdjudicateMerges` shows, and
`MergeRuns.SkippedWriteIff` says when the record left on disk then no longer matches the jobs that run. Dispatch assumes
that others leave the lease of a story in dispatch alone (`Respects`) and, where attempts are counted, the story in its
manifest (`AlwaysPlanned`); that no lease runs out inside its own dispatch is a hypothesis of the exclusion theorem, and
`SecondDispatchIff` says exactly what happens when it does. Login assumes tokens that do not repeat (`FreshTokens`) and
a clock that does not go back; a reading taken before a lock may be arbitrarily older than the step it is used in
(`LoginRuns.InOrder`), and the rate limiter's theorems say what its stamps need (`Orderly`, `Lags`). The registry
assumes that equal `stat` identity means equal content (`Versions`).

## Where the code and its documentation part

- CI feedback stacks from the second merge attempt on: later briefs put a sentence in front of the marker the merge
  function looks for, although the comment at `pipeline/advance_merge.py:79` says the marker is the first line
  (`Feedback.CiFeedbackReplacesIff`). Conflict briefs go through the same function, carry no marker, and stack in full
  (`Feedback.CarriedAfterRounds`).
- A failed re-verify result whose error is empty, null or otherwise false to Python lets the merge through, because the
  gate tells success from failure by that value (`MergeRuns.FailedReverifyMergesIff`). The job of this repository always
  puts text in front of the error of a failing result (`pipeline/merge_reverify.py:351-359`), so only a result file
  written by something else can carry one.
- A pending CI commit survives a park. After a new review the gate settles the old commit's CI; in inline mode it then
  merges the new head (`MergeHistory.ParkedPendingCommitGoesStale`), in detached mode, the default, it re-verifies the
  old commit and refuses the merge on a later tick (`MergeHistory.StaleCommitIsRefusedDetached`). In general a merge
  without a fresh push merges the checked commit exactly when the approval stood on it
  (`MergeHistory.MergedHeadIsCheckedIff`).
- A handle left by a detached tick is not touched in inline mode (`MergeHistory.HandleLeftBehindIff`).
- An append to a stream that does not end in a line boundary joins two texts into one unreadable line, also when what
  stands there is white space that JSON does not know (`AuditChain.AppendKeepsIntactIff`).
- An anchor verdict is not permanent: a rewritten stream that grows past the anchor is anchored in its turn and
  reported clean (`AnchorVerdicts.CleanAfterPassIff`), and a stream whose name anchors nothing is appended again on
  every pass (`AuditAnchor.RepeatPassAppendsNothingIff`).
- The comparison with an anchor breaks lines at newlines only, the chain verification also at other separators: a
  stream with such a separator between the anchored record and the next verifies, begins with the anchored stream, and
  is called truncated (`AnchorVerdicts.JoinedRecordsAreTruncated`). `AnchorVerdicts.CleanIff` is exact: the beginning
  must be there and the anchored record must stand alone on its newline-delimited line.
- A story that an automatic actor puts back to work after it was given up keeps its counters, so it can fail the gate
  once more for each time it is revived (`MergeHistory.RetriesEnd`).
- A dispatch that outlives its lease can be doubled, and at its end removes the lease of the second one
  (`Dispatch.SecondDispatchIff`, `Dispatch.StaleDispatchClearsLease`).
- The rate limiter reads the clock before it takes its lock, and a call that gets the lock out of order can be the 61st
  of a window (`LoginRate.LateStampOverfills`). Where stamps reach the lock at most `lag` seconds out of order, exactly
  the windows of at most 60 - `lag` seconds keep the bound (`LoginRate.BoundedIff`).
- The authority fold raises on a list with an unhashable entry, although every refusal is said to be recorded and never
  raised (`AuthorityLaws.FoldRaisesIff`); an org enum value is not compared with its own loosest value
  (`AuthorityLaws.OrgValueInEnvelopeIff`); tighten-only numbers are not held to the bound on their tight side,
  and pass it exactly when some entry offers a number beyond it (`AuthorityLaws.TightenOnlyInBoundsIff`, `AuthorityLaws.TightenOnlyReachesAny`).
- The sweep stops at a stale plan whose name is not a valid key (`AdvanceRuntime.Sweep`), and the name rule,
  documented as key characters other than dots alone, lets one trailing line feed through, even behind dots alone
  (`AdvanceQueues.ValidKeyIff`).
- A key fetch that ends in an exception other than an identity error leaves no record and holds nothing back
  (`Jwks.GapIff`).
- A registry file rewritten between `stat` and the read can be remembered under the old version
  (`Registry.TornLoadKeepsIff`).

## Model

| member | source | states |
|---|---|---|
| Feedback.CarriedAfterMerge | pipeline/advance_merge.py:102-122 | after a round wrote header, kept text and brief, the next round finds the same kept text again, plus whatever the brief says in front of its marker: a newline-free marker cannot straddle the joins |
| Feedback.BeforeMarkerOfCiBrief | pipeline/ci.py:477-512 | every CI brief contains the marker; nothing precedes it in a first-round brief and exactly the attempt sentence in a later one |
| Feedback.BriefTells | pipeline/ci.py:477-512 | behind its marker a brief tells the gate error in full and the instructions, and ends with the excerpt exactly from the second round on when there is one |
| Feedback.CarriedIsClean | pipeline/advance_merge.py:102-122 | what is carried forward never contains the marker and has no blank ends |
| Feedback.LoneHeaderIsDropped | pipeline/advance_merge.py:102-122 | a header with nothing behind it carries nothing |
| Feedback.CiFeedbackReplacesIff | pipeline/advance_merge.py:75-122 | two CI failures in a row leave the feedback the second alone would leave, if and only if the first was of round one |
| Feedback.CarriedAfterConflict | pipeline/advance_merge.py:588-607 | a conflict brief is carried forward in full behind the review text |
| Feedback.CarriedAfterRounds | pipeline/advance_merge.py:102-122 | over any number of CI and conflict rounds in any order, the carried text is the review text followed by one sentence per later CI round and by every conflict brief |
| Feedback.ReviewTextStaysInFront | pipeline/advance_merge.py:102-122 | the review text stays a prefix of it, and nothing stacks exactly when all rounds were first CI rounds |
| Feedback.ReviewTextSurvives | pipeline/advance_merge.py:102-122 | review text without marker and header is kept word for word in front of the CI text |
| MergeGate.StoryRecord.ReadjudicateParkedMergeHold | pipeline/advance_merge.py:125-220 | a parked high-risk hold is put to the ruling again exactly when it is the gate's own hold and its CI evidence changed; the record in place follows the specification |
| MergeGate.StoryRecord.ParkStory | pipeline/advance_merge.py:376-406 | a park cancels the running job, records the evidence and drops the handle |
| MergeGate.StoryRecord.PickSha | pipeline/advance_merge.py:459-489 | the commit a tick works on: pending, job's while the worktree stands on it, or newly pushed after cancelling the job |
| MergeGate.StoryRecord.Poll | pipeline/advance_merge.py:496-553 | the CI poll with its single automatic rerun, the pending bound and the two pending fields |
| MergeGate.StoryRecord.Reverify | pipeline/advance_merge.py:223-335 | inline checks, or start, replace, await and collect of the detached job |
| MergeGate.StoryRecord.RecordGateError | pipeline/advance_merge.py:567-745 | conflict rework, CI rework, giving up or a retry, in place as the specification says; which error goes where is stated on the inputs by the rework laws of `MergeOutcomes` |
| MergeGate.StoryRecord.MergePr | pipeline/advance_merge.py:752-794 | the merge call, its failure counting, and the fields a merge clears |
| MergeGate.StoryRecord.Adjudicate | pipeline/advance_merge.py:358-825 | one tick of one story, updated field by field, equals the specification function in state, outcome and requests to the outside |
| MergeGate.AdjudicateMerges | pipeline/advance_merge.py:346-825 | the loop over a manifest gives every story exactly its own step and writes the manifest once at the end; an exception leaves the disk as it was, though the stories before it have acted and the one that raises has made the first of its own requests |
| MergeOutcomes.TickIs | pipeline/advance_merge.py:346-825 | for every record, input and setting: the outcome, every field of the record and every request of a tick are those of a decision table over the inputs, which knows no stages |
| MergeOutcomes.ConflictReworkIff | pipeline/advance_merge.py:581-616 | a tick sends a story back for a conflict if and only if it is at the gate, its rebase (or the result of its job) failed with an error that starts with `rebase:` and says conflict in either case, and the setting and the cap allow it; the feedback carries the conflict brief and no merge attempt is spent |
| MergeOutcomes.CiReworkIff | pipeline/advance_merge.py:618-687 | it sends it back for CI if and only if CI's final answer is a failure, not a cancelled, unreadable or overdue run, and the setting and the attempts allow it; the feedback carries the CI brief of this round |
| MergeOutcomes.RetryOrGiveUpIff | pipeline/advance_merge.py:706-794 | every other error, and a failing merge call, costs one attempt and leaves the story at the gate, if and only if it was not the last; the last one fails it with the error noted |
| MergeRuns.ResultErrorIff | pipeline/advance_merge.py:311-335 | a collected result lets the merge through exactly when it names the commit and passed, or failed with an error that is empty or false |
| MergeRuns.ReverifyLetsThroughIff | pipeline/advance_merge.py:223-335 | the re-verify lets a commit through exactly on a collected passing result for that very commit (detached), or when neither check failed (inline) |
| MergeRuns.PollMergesIff | pipeline/advance_merge.py:496-794 | from the CI poll on, a merge happens exactly when CI does not stand in the way and the re-verify lets the commit through |
| MergeRuns.MergedIff | pipeline/advance_merge.py:338-825 | a tick turns a story done if and only if the ruling is merge, the approval covers the remote head, the rebase (if any) succeeded, the final CI answer is none of fail, cancelled, unreadable, pending, the re-verify of the carried commit passed, and the merge call succeeded |
| MergeRuns.FailedReverifyMergesIff | pipeline/advance_merge.py:320-327 | with everything else in place, a story whose re-verify failed is merged if and only if the error of the result is empty or false |
| MergeRuns.ReplayConserves | pipeline/advance_merge.py:263-311 | a request trace that keeps the job protocol starts as many jobs as it collects, cancels and still holds |
| MergeRuns.HeldWasStarted | pipeline/advance_merge.py:271-294 | a job held at the end was held at the start or started in the trace |
| MergeRuns.GateKeepsLaw | pipeline/advance_merge.py:451-794 | a gate pass keeps the job protocol, rebases only when nothing is pending or standing, polls and starts jobs only for the carried commit, and leaves a handle behind only while it waits |
| MergeRuns.TickKeepsLaw | pipeline/advance_merge.py:338-825 | the law of a whole tick: counters by outcome, job protocol, parks that only cancel, skips that change nothing |
| MergeRuns.SkippedWriteIff | pipeline/advance_merge.py:346-825 | when an exception skips the write of the manifest, the record left on disk still matches the jobs that run if and only if the story's step did not change its handle; a live job is lost only where the tick had started it and was to wait for it |
| MergeHistory.HistoryKeepsProtocol | pipeline/advance_merge.py:263-311 | over any history no two jobs are live at once and none is collected or cancelled twice or unstarted |
| MergeHistory.JobsAreConserved | pipeline/advance_merge.py:263-311 | over any history, started equals collected plus cancelled plus held |
| MergeHistory.NoHandleAwayFromGate | pipeline/advance_merge.py:376-384 | in detached mode every park, rework, failure and merge leaves no handle |
| MergeHistory.HandleLeftBehindIff | pipeline/advance_merge.py:223-311 | a story leaves the gate with a handle exactly in inline mode, with a handle it had, no rebase, all the evidence for a merge, and a merge call that succeeds or fails for the last time |
| MergeHistory.HandleHasOrigin | pipeline/advance_merge.py:271-294 | every handle was started by an earlier tick for the commit whose CI had then passed |
| MergeHistory.MergeRestsOnEarlierJob | pipeline/advance_merge.py:320-323 | a detached merge collects a job an earlier tick of the same history started for exactly the merged commit, after CI had let it through |
| MergeHistory.PendingCommitIsNotRebased | pipeline/advance_merge.py:454-460 | while a commit's CI is pending nothing is rebased and only that commit is polled, until the poll settles |
| MergeHistory.TickKeepsOneCommit | pipeline/advance_merge.py:459-496 | pending commit, job commit and approved commit stay equal under ticks |
| MergeHistory.PendingMatchesJob | pipeline/advance_merge.py:459-480 | over any history with other actors, a pending commit and a job handle are about the same commit |
| MergeHistory.HistoryKeepsOneCommit | pipeline/advance_merge.py:459-496 | over any history in which nobody else separates them, pending commit, job commit and approved commit stay the same |
| MergeHistory.MergedCommitIsChecked | pipeline/advance_merge.py:445-496 | over any such history, a merge without a fresh push merges exactly the remote commit whose CI was polled |
| MergeHistory.MergedHeadIsCheckedIff | pipeline/advance_merge.py:445-496 | a merge without a fresh push merges the commit it checked if and only if the approval it met stood on that commit |
| MergeHistory.UncheckedMergeNeedsOther | pipeline/advance_merge.py:445-496 | over a history it merges another one only after somebody else bound the approval away from a pending commit or a running job |
| MergeHistory.FailuresAreCounted | pipeline/advance_merge.py:581-745 | over any history, with failed stories revived at will, a story that is not done has failed exactly as often as its two counters say, and at most conflict cap + attempt cap + the number of times it was given up |
| MergeHistory.GiveUpsNeedRevivals | pipeline/triage.py:580-600 | a story is given up at most once more than another actor put it back to work |
| MergeHistory.RetriesEnd | pipeline/advance_merge.py:706-731 | a story fails at most conflict cap + attempt cap + 1 times and once more per revival, and is failed when it has used them all without one |
| MergeHistory.UnchangedHoldIsLeftAlone | pipeline/advance_merge.py:125-220 | after a park, further ticks leave the story alone until its CI evidence changes, and exactly then it is ruled on again |
| MergeWaits.TickKeepsWait | pipeline/advance_merge.py:499-553 | one tick continues or ends a wait and counts its reruns; it starts one only while waiting |
| MergeWaits.CiWaitIsBounded | pipeline/advance_merge.py:527-553 | over any history, a tick that waits on CI lies within the bound of the tick that first saw that very commit pending, with nothing settled in between |
| MergeWaits.RerunAtMostOnce | pipeline/advance_merge.py:499-507 | over a story's whole life the gate reruns its CI at most once |
| MergeHistory.CiReworkKeepsReviewText | pipeline/advance_merge.py:667-687 | a CI rework keeps the review text; the carried text grows exactly when merge attempts came before |
| MergeHistory.ParkedPendingCommitGoesStale | pipeline/advance_merge.py:376-460 | in inline mode, a pending commit that survives a park is polled in place of the newly approved head, which is merged exactly when the inline checks and the merge call succeed |
| MergeHistory.StaleCommitIsRefusedDetached | pipeline/advance_merge.py:445-565 | in detached mode the same tick re-verifies the old commit and moves the approval to it, and a later tick refuses the new head |
| AdvanceQueues.AdvanceQueue.Request | pipeline/advance_queue.py:43-81 | an accepted request leaves the plan queued, or dirty in flight; the record in place follows the specification |
| AdvanceQueues.AdvanceQueue.Take | pipeline/advance_queue.py:85-106 | one pass of take hands out the head and marks it in flight |
| AdvanceQueues.AdvanceQueue.Finish | pipeline/advance_queue.py:108-127 | finishing records the time of that plan alone and requeues a dirty plan at the tail |
| AdvanceQueues.KeyCharIff | pipeline/parsers.py:291 | the characters of a key by their code points |
| AdvanceQueues.ValidKeyIff | pipeline/parsers.py:291-305 | a name passes the rule if and only if it is a plain key, or any key characters, dots alone included, followed by one line feed |
| AdvanceQueues.RunKeepsInv | pipeline/advance_queue.py:25-127 | in every interleaving: no duplicates, queue and in-flight disjoint, dirty within in-flight, no plan held by two slots |
| AdvanceQueues.FirstComeFirstServed | pipeline/advance_queue.py:59-127 | what waits now is a prefix of what is handed out later followed by what waits then |
| AdvanceQueues.ServedAtTurn | pipeline/advance_queue.py:91-106 | the plan at index i is the one handed out by exactly the (i+1)-th later take |
| AdvanceQueues.WorkDrains | pipeline/advance_queue.py:91-127 | without new requests, takes done plus work left is constant |
| AdvanceQueues.NoLostWakeUp | pipeline/advance_queue.py:59-127 | a plan waits or is dirty in flight if and only if a request for it was accepted and it was not handed out since |
| AdvanceQueues.ClosedForGood | pipeline/advance_queue.py:85-135 | after a close the queue stays closed, hands out nothing and remembers no plan it did not know, whatever comes later |
| AdvanceRuntime.Sweep | pipeline/advance_runtime.py:157-191 | among producers and slots at work, every visit ends with an active plan fresh or remembered by the queue (unless it is closed), exactly the plans stale when looked at are asked for, and the sweep fails exactly at a stale active plan with an invalid name |
| AdvanceRuntime.SweptIsLookedAfter | pipeline/advance_runtime.py:176-183 | ever after its visit, an active plan was fresh, is still remembered, or was handed to a slot since |
| AdvanceRuntime.TurnFinishesPlan | pipeline/advance_workers.py:279-299 | from its take to its finish a slot alone holds the plan; the finish records the time and frees the slot, whatever the others do |
| AdvanceRuntime.TakenPlanIsFinished | pipeline/advance_workers.py:283-297 | over any history, a slot that holds nothing has finished every plan it took |
| AdvanceRuntime.TimesAreFinishes | pipeline/advance_queue.py:108-127 | over any history a plan has a time of advance if and only if a slot that held it finished it, and it is the time of the last such finish |
| AdvanceRuntime.WasFreshIff | pipeline/advance_runtime.py:176-183 | the sweep leaves an active plan alone if and only if its last finish lies within the bound |
| Framing.LinesArePrefix | pipeline/advance_workers.py:108-139 | complete lines read off a prefix of a stream are the first lines written to it |
| Framing.ReadingIsUnique | pipeline/advance_workers.py:108-139 | there is one way to read a stream as complete lines and a rest |
| AdvanceWorkers.Child.Send | pipeline/advance_workers.py:101-106 | one request line is written to an idle child, whose answer is then outstanding |
| AdvanceWorkers.Child.ReadLine | pipeline/advance_workers.py:108-139 | a read takes the next complete line, or everything offered was read and holds none; it then says closed if and only if the first arrival that ends the wait is the end of the pipe, an error or an empty read, and timed out otherwise |
| AdvanceWorkers.LinesReadAreLinesWritten | pipeline/advance_workers.py:108-139 | in whatever pieces the stream arrives, the lines read are the first lines written, in order, with nothing left over when none is missing |
| AdvanceWorkers.Counters.Exchange | pipeline/advance_workers.py:320-348 | each of the five ends of an exchange happens if and only if its own condition on the arrivals holds; every end but acceptance closes the child, and each is counted where it belongs |
| AdvanceWorkers.Counters.Advance | pipeline/advance_workers.py:301-348 | each of the seven ends of an advance happens if and only if its own condition on plan, worker and arrivals holds; the line accepted is the child's answer to that very request, never a late one: a child is kept only when it owes nothing |
| AdvanceWorkers.AnswerRead | pipeline/advance_workers.py:301-348 | with one request outstanding, a line is read exactly when enough was offered, and it is that request's answer |
| AdvanceWorkers.RunSlot | pipeline/advance_workers.py:279-299 | over a slot's whole life among other slots and producers, each go finds nothing to take or takes the head and is followed by its own finish of that plan; the advance is accepted when nothing fails, and every accepted line answers the plan just sent |
| AdvanceWorker.WriteLine | pipeline/advance_worker.py:138-144 | exactly one terminated line is written, in whatever pieces the pipe accepts it |
| AdvanceWorker.Serve | pipeline/advance_worker.py:169-205 | the worker's stream is one line per answered request in order; it stops only after an answer, at the first that reaches the cap, 200 where none is set, or follows a changed env file |
| AdvanceWorker.StreamIsServed | pipeline/advance_worker.py:169-205 | what the worker writes for the requests a parent sent is the stream of answers the parent's child owes it |
| AdvanceWorker.LinesAreReplies | pipeline/advance_worker.py:138-205 | in whatever pieces a parent reads what the worker wrote, the k-th line is the reply to the k-th request |
| AuditChain.VerifyChain | pipeline/audit.py:191-222 | the verdict is the first record that breaks number, link or hash, or none when all hold |
| AuditChain.VerdictIsUnique | pipeline/audit.py:191-222 | that verdict is determined by the records |
| AuditChain.ToIntIff | pipeline/audit.py:119-151 | which integer the number of the last record stands for: a fraction is cut off towards zero, a missing number is zero, and a value that stands for none makes the append raise |
| AuditChain.Stream.AppendAudit | pipeline/audit.py:119-151 | an append writes one record numbered and linked after the last one on disk, and nothing when it raises |
| AuditChain.AppendedRecords | pipeline/audit.py:119-151 | an append adds its record, or adds an unreadable one behind white space only `str.strip` knows, or replaces the last record by an unreadable one |
| AuditChain.WrittenEndsLine | pipeline/audit.py:119-151 | a write ends its own line with a newline and leaves every earlier line and line end as it was |
| AuditChain.AppendKeepsIntactIff | pipeline/audit.py:119-151 | an append to an intact stream never raises and leaves it intact exactly when the file is empty or ends in a line boundary or in JSON white space; otherwise it says at which record the chain breaks |
| AuditChain.AppendKeepsBreak | pipeline/audit.py:119-151 | an append never moves the first broken index of a damaged stream |
| AuditChain.GrownIsIntact | pipeline/audit.py:119-222 | a stream grown by appends alone verifies and holds every record in order |
| AuditAnchor.Anchors | pipeline/audit_anchor.py:204-235 | the loop over the log computes the strongest anchor of every chain |
| AuditAnchor.StrongestIsStrongest | pipeline/audit_anchor.py:204-235 | it is the highest number ever anchored and, at that number, the hash anchored first |
| AuditAnchor.Ratchet | pipeline/audit_anchor.py:18-30 | whatever is appended, an anchored number never falls and its hash is never replaced |
| AuditAnchor.AnchorLog.AnchorHeads | pipeline/audit_anchor.py:319-373 | one pass appends exactly the heads above the anchors known at its start, and nothing when the log cannot be read |
| AuditAnchor.PassCovers | pipeline/audit_anchor.py:346-373 | after a pass the anchor of a usable chain is at least every head read for it |
| AuditAnchor.PassOrigin | pipeline/audit_anchor.py:346-373 | it is the old anchor or a head read above the old anchor |
| AuditAnchor.PassMovesIff | pipeline/audit_anchor.py:346-373 | an anchor moves exactly when a head above it was read |
| AuditAnchor.RepeatPassAppendsNothingIff | pipeline/audit_anchor.py:319-373 | a second pass over the same heads appends nothing exactly when every chain with a head has a usable name |
| AuditAnchor.AnchorSurvivesIff | pipeline/audit_anchor.py:319-373 | over any run of passes an anchor never weakens, and is unchanged exactly when no pass read a head above it |
| AnchorVerdicts.CompareWithAnchor | pipeline/audit_anchor.py:150-185 | the loop over newline-delimited lines, each stripped and read as one document: the first record with the anchored number decides: clean, mismatch, or truncated when there is none |
| AnchorVerdicts.VerifyAgainstAnchor | pipeline/audit_anchor.py:386-409 | an unreadable log is a verdict of its own, an unanchored chain is clean, and otherwise the comparison decides |
| AnchorVerdicts.RunsHoldRecords | pipeline/audit.py:55-72 | the newline-delimited lines hold, one run after the other, exactly the records the chain verification sees |
| AnchorVerdicts.VerdictOnIntact | pipeline/audit_anchor.py:376-383 | on a stream that verifies, the record at the anchored position decides if it stands alone on its newline-delimited line, and without it the stream is truncated |
| AnchorVerdicts.NewlinesStandAlone | pipeline/audit_anchor.py:174-185 | where every line ends in a newline every record stands alone |
| AnchorVerdicts.SharedHashSharedPrefix | pipeline/audit.py:49-52 | two streams that verify, have no digest in common for different records, and share the hash at number n have the same records 0..n |
| AnchorVerdicts.CleanIff | pipeline/audit_anchor.py:376-409 | a stream that verifies is clean against an anchored earlier head if and only if the whole earlier stream is its beginning and the anchored record stands alone on its newline-delimited line |
| AnchorVerdicts.CleanIffPrefix | pipeline/audit_anchor.py:376-409 | where every line ends in a newline, if and only if the whole earlier stream is its beginning |
| AnchorVerdicts.JoinedRecordsAreTruncated | pipeline/audit_anchor.py:174-185 | a stream that verifies and begins with the anchored one, yet is called truncated, because another line separator stands behind the anchored record |
| AnchorVerdicts.StreamsToCompare | pipeline/audit_anchor.py:376-383 | the theorem is about streams there are: one that grew is found clean and one that was rewritten is not |
| AnchorVerdicts.CleanAfterPassIff | pipeline/audit_anchor.py:346-409 | after one more pass it is clean exactly when the record that is then anchored stands alone, and the earlier stream is its beginning or its own head is above the anchor |
| AnchorVerdicts.VerdictSurvives | pipeline/audit_anchor.py:386-409 | a verdict survives every run of passes that reads no head above the anchor |
| AnchorVerdicts.VerifiedWhereAnchoredIff | pipeline/audit_anchor.py:238-281 | a chain is verified against the stream its head was read from, except for a plan called host |
| AnchorVerdicts.SharedChainNameIff | pipeline/audit_anchor.py:238-273 | two visited streams share a chain name only when one is the host's and the other a plan called host |
| AnchorVerdicts.FirstHeadAnchorsIff | pipeline/audit_anchor.py:124-148 | the head of every visited stream is anchored under the stream's own name if and only if its plan has a bare name: not empty, and no path or colon in it |
| AnchorVerdicts.VerdictAfterFirstPass | pipeline/audit_anchor.py:319-409 | from then on whatever the stream becomes is compared with that head; a stream whose name anchors nothing is always found clean |
| AnchorVerdicts.AliasAnchorsNothing | pipeline/audit_anchor.py:124-148 | a chain name with a colon in its plan part, or that reads as a path, is never anchored by any log |
| Dispatch.NoLostUpdate | pipeline/advance.py:546-665 | a tick writes the manifest only under the lock, on a copy read in the same hold, and changes its own story alone: the claim writes the lease; the end takes it off, leaves a success as it is, counts a failure, and fails the story exactly at the limit |
| Dispatch.RunKeepsInv | pipeline/advance.py:546-665 | over any interleaving: lock holders, copies and leases agree, and dispatches are on different stories |
| Dispatch.OneDispatchPerStory | pipeline/advance.py:535-568 | no story is in two dispatches at once, and a story in dispatch carries that dispatch's lease on disk |
| Dispatch.DispatchedFresh | pipeline/advance.py:546-568 | whatever the others do, a dispatch begins on a story whose status on disk is dispatchable at that moment, with its claim persisted |
| Dispatch.ClaimIff | pipeline/dispatch_lease.py:68-187 | a claim succeeds if and only if the story is planned, waits to be dispatched, and its lease is missing, run out, or its owner is gone; it takes a lease of its own, and a refused claim changes nothing |
| Dispatch.SecondDispatchIff | pipeline/dispatch_lease.py:117-187 | while a dispatch runs, another tick claims its story exactly when the story is still dispatchable and the lease has run out; a refused claim changes nothing |
| Dispatch.StaleDispatchClearsLease | pipeline/advance.py:656-665 | a dispatch that was doubled takes the second one's lease off at its end |
| Dispatch.AttemptsAreFailures | pipeline/advance.py:611-654 | the attempt count equals the failed dispatches that ticks came back from plus what polling and escalation added or took away, over any interleaving; a failure fails the story if and only if the count reaches the limit, and otherwise leaves its status for the next tick |
| DispatchTick.WithinLimits | pipeline/advance.py:482-568 | a tick tries no more stories that need a slot than slots were free, and no more than its budget come back with a record |
| DispatchTick.TriedIff | pipeline/advance.py:482-568 | what becomes of each candidate, if and only if: left for the next tick, deferred for a slot, gated, passed over for its claim, or tried |
| DispatchTick.CountersCount | pipeline/advance.py:556-600 | the two counters of a tick count exactly the tries that needed a slot, and the tries that came back with a record that does not say it failed |
| DispatchTick.PlanFile.DispatchStory | pipeline/advance.py:546-665 | one claim, window and settlement on the manifest in place: the claim is written before the window opens; when the claim fails, when the tick breaks off, and what a success and a failure leave of the story, below the limit and at it |
| DispatchTick.PlanFile.DispatchReady | pipeline/advance.py:494-665 | the loop with its two counters equals the tick stated by what was attempted before each candidate |
| DispatchTick.DispatchIsARun | pipeline/advance.py:546-665 | one candidate of a tick, refused, broken or dispatched, is a run of the lock protocol, step by step, with the same manifest at the end |
| DispatchTick.TickIsARun | pipeline/advance.py:482-665 | a whole tick over any candidates is a run of the lock protocol that ends on the same manifest, with the lock held when the tick goes on and released when it broke |
| LoginRate.RateTable.RateLimited | app/oidc_login.py:703-721 | a call is refused exactly when its client's window is full; the table in place follows the specification and stays within its bound |
| LoginRate.CallKeepsValid | app/oidc_login.py:703-721 | the table never exceeds its bound after a call, evictions or not |
| LoginRate.CallEvictsOldest | app/oidc_login.py:712-720 | an eviction takes the client tracked longest and only on the call of an untracked one; a caller never pushes itself out |
| LoginRate.TableIsHistory | app/oidc_login.py:703-721 | as seen at a time no call was stamped after, the table holds exactly the admitted calls still in the window |
| LoginRate.AdmittedIff | app/oidc_login.py:703-721 | a call no earlier call at the lock is stamped after is admitted if and only if fewer than the allowed number of its client's calls were admitted in the 60 seconds before it |
| LoginRate.RefusedOnlyWhenFull | app/oidc_login.py:703-721 | for stamps in any order and any evictions, no call is refused but for a full window |
| LoginRate.OrderlyWindow | app/oidc_login.py:703-721 | a window of at most 60 seconds holds no more than the allowed number of admitted calls of a client, as long as no call stamped 60 seconds after its beginning gets the lock before one of its calls |
| LoginRate.SlidingWindow | app/oidc_login.py:703-721 | where stamps reach the lock at most `lag` seconds out of order, every window of 60 seconds less the lag keeps the bound; in order, every 60 second window |
| LoginRate.LateStampOverfills | app/oidc_login.py:703-721 | for every lag, a history with stamps that late and 61 admitted calls in any window longer than 60 seconds less the lag |
| LoginRate.BoundedIff | app/oidc_login.py:703-721 | the bound holds for windows of a length, over all histories with stamps at most `lag` seconds out of order, if and only if the length is at most 60 seconds less the lag |
| LoginSessions.LoginTables.BeginLogin | app/oidc_login_routes.py:118-168 | a login is stored after pruning, unless it is limited, discovery fails or 1024 live logins are pending; the table then holds the live ones and it, for 600 seconds |
| LoginSessions.LoginTables.FinishLogin | app/oidc_login_routes.py:171-285 | each end of a callback happens if and only if its own check is the first that fails; a session of the token's principal is opened exactly when every check passes; the state is consumed by every callback that is bound to its browser, and by no other |
| LoginSessions.LoginTables.LoadSession | app/oidc_login.py:579-604 | a lookup succeeds exactly inside both deadlines, moves only the time of its own session, and drops the session when it fails |
| LoginSessions.LoginTables.EndSession | app/oidc_login_routes.py:316-318 | logout removes that session and no other |
| LoginRuns.OneSessionPerState | app/oidc_login_routes.py:118-285 | over any run, a minted state is consumed at most once and opens at most one session |
| LoginRuns.PendingIsBounded | app/oidc_login_routes.py:128-150 | the pending table never exceeds its capacity |
| LoginRuns.TakesIff | app/oidc_login_routes.py:118-209 | over any run, a callback gets its login if and only if it was begun and found room, no callback came for it before, and the TTL has not passed; what other attempts prune does not matter |
| LoginRuns.SessionRestsOnLogin | app/oidc_login_routes.py:171-285 | every session rests on a login that was begun, whose state was taken before its TTL ran out, and on a token with the nonce minted for it |
| LoginRuns.SessionIsWhose | app/oidc_login.py:544-577 | over any run, a session belongs to the principal of the token that opened it, and dates from then |
| LoginRuns.LookupIff | app/oidc_login.py:544-604 | a lookup succeeds exactly when the unpruned history says the session is alive and inside both deadlines, however late the other steps get the lock |
| LoginRuns.LookupsAreTimely | app/oidc_login.py:579-604 | successful lookups come before the absolute deadline and less than the idle timeout after the step that last touched the session, which was its creation or a success |
| LoginRuns.RefusedForGood | app/oidc_login.py:579-604 | after the first refusal or a logout a session is never accepted again |
| Authority.Fold | pipeline/authority_matrix.py:121-162 | the nested loops judge the entries of all team layers in order, each against the value accumulated so far |
| AuthorityLaws.WithinIff | pipeline/authority_matrix.py:440-492 | the envelope test holds exactly when the attempt is at least as tight as the current value in the rule's own order (list entries compared as Python compares them), or inside the bounds of an adjustable rule, and raises exactly on a list with an unhashable entry |
| AuthorityLaws.JudgedIff | pipeline/authority_matrix.py:440-459 | an entry is accepted, refused for each of the four reasons, or raises, if and only if: unknown, on the never list, locked, or not fitting, in that order |
| AuthorityLaws.TightTransitive | pipeline/authority_matrix.py:440-492 | each of the four tightness orders is transitive |
| AuthorityLaws.FoldOnlyTightens | pipeline/authority_matrix.py:121-162 | for any number of layers: locked and never-listed rules keep the org value, tighten-only rules end at least as tight, adjustable ones inside their envelope or at the org value |
| AuthorityLaws.OrgValueInEnvelopeIff | pipeline/authority_matrix.py:344-417 | a valid org value lies in its own envelope except for an enum value looser than the loosest allowed |
| AuthorityLaws.TightenOnlyInBoundsIff | pipeline/authority_matrix.py:475-484 | after any layers a tighten-only number lies between its bounds if and only if no entry for it offers a number beyond the bound on its tight side |
| AuthorityLaws.TightenOnlyReachesAny | pipeline/authority_matrix.py:475-484 | one entry brings such a rule to any number at least as tight as the org's, however far outside the bounds |
| AuthorityLaws.FoldRaisesIff | pipeline/authority_matrix.py:486-498 | the fold raises exactly when some entry offers an unhashable list to a delegated set rule |
| AuthorityLaws.RefusedExactly | pipeline/authority_matrix.py:143-162 | every entry is accepted or recorded as a violation, once, in order |
| AuthorityLaws.RefusedDoNotMatter | pipeline/authority_matrix.py:143-162 | deleting the refused entries gives the same values and no violations |
| AuthorityLaws.TierFor | pipeline/authority_matrix.py:169-181 | always one of the three tiers, and autonomy only when the matrix says so literally |
| AuthorityLaws.TierIff | pipeline/authority_matrix.py:169-181 | the tier is human if and only if no matrix was resolved or it does not say one of the two others literally |
| AuthorityLaws.TeamsGrantNothing | pipeline/authority_matrix.py:121-181 | no run of team layers makes a tier rule that may not be loosened looser |
| Jwks.KeyCache.Keys | app/oidc.py:395-438 | one lookup: served from either check, held back by a recent failure, or fetched and recorded |
| Jwks.PastChecksIsDistant | app/oidc.py:415-428 | a fetch that gets past both checks begins its distance after every earlier fetch of the document |
| Jwks.FetchesAreSpaced | app/oidc.py:395-438 | over any interleaving, fetches of one document begin at least 10 seconds after one that succeeded and 5 after one that was refused |
| Jwks.FetchesAreFew | app/oidc.py:395-438 | W seconds see at most W/5 + 1 fetches of one document, and one more for each that left no record |
| Jwks.GapIff | app/oidc.py:395-438 | the next fetch can begin `gap` seconds after one that ended in `o`, in some run, if and only if `gap` is at least 10 for a success, 5 for a refusal, 0 for any other exception |
| Jwks.ServedIsYoung | app/oidc.py:405-424 | what is served from the cache came from a successful fetch begun less than 300 seconds before, less than 10 for a forced refresh |
| Jwks.ServedIff | app/oidc.py:405-424 | over any interleaving, a lookup is answered from the cache if and only if the last successful fetch began less than 300 seconds before, 10 for a forced refresh, whatever failed since |
| Jwks.HeldBackIff | app/oidc.py:425-432 | a lookup is held back if and only if the last fetch that left a record was refused less than 5 seconds before |
| Jwks.GoesOnIff | app/oidc.py:405-440 | a caller goes on to the fetch lock, and from there to a fetch, exactly when neither look is served and no failure holds it back |
| Transcript.SplitBlocks | app/ollama_prompt_utils.py:293-301 | the two loops split the rest into blocks that begin at every message but a tool reply |
| Transcript.KeepNewest | app/ollama_prompt_utils.py:302-311 | the newest blocks that fit are kept, and at least one |
| Transcript.TrimReviewTranscript | app/ollama_prompt_utils.py:275-323 | the result is the input, or its head, the note with the number of dropped blocks, and the longest block-aligned suffix that fits (the last block when none does) |
| Transcript.NoteTells | app/ollama_prompt_utils.py:311-323 | the note tells in the user's voice how many turns were dropped |
| Text.DecimalIs | app/ollama_prompt_utils.py:311-323 | the count in the note, and in a later brief, is the decimal text of the number |
| Transcript.BlocksAt | app/ollama_prompt_utils.py:293-323 | the kept blocks are exactly the messages from their opening on |
| Transcript.CutIsUnique | app/ollama_prompt_utils.py:302-312 | there is one such suffix |
| Transcript.BlocksStayWhole | app/ollama_prompt_utils.py:278-286 | a message is kept exactly when the message that opens its block is |
| Transcript.WithinLimitIff | app/ollama_prompt_utils.py:302-323 | the trimmed transcript stays within the limit, but for the note, exactly when its last block fits |
| Registry.CheckedIff | app/role_registry.py:132-149 | a registry is accepted exactly when every role names a declared provider and model, and the refusal names the first role that does not |
| Registry.Cache.Load | app/role_registry.py:100-159 | a load on the memo in place follows the specification, and what it hands out is a deep copy: neither the document nor any part of it is the memo's |
| Registry.LoadKeepsOnePerPath | app/role_registry.py:150-158 | at most one version of a file is kept |
| Registry.LoadRefines | app/role_registry.py:100-159 | a load that sees one state of the disk answers as if there were no memo |
| Registry.TornLoadKeepsIff | app/role_registry.py:115-158 | a load during a rewrite keeps the memo right exactly when nothing is stored or both versions parse alike |
| Registry.RunProgram | app/role_registry.py:77-159 | for any program of rewrites, deletions, loads, in-place changes of returned registries down to their parts and resets, the loads answer as if each had read the file |

## Left out

- All input and output: git, `gh`, HTTP, subprocesses, `select`, file modes and fsync; only their results appear.
- Notifications, summaries, telemetry, logging, ticket updates and the fields `pr_checks_error`, `last_test_check` and the re-verify log tail: nothing in the modelled state depends on them.
- The body of the ruling, of the job runner and of the merge call: arbitrary inputs of a tick. A result whose error is neither text nor false, or an ungraded result whose error is no text, makes the tick raise; only AdjudicateMerges models a tick that raises.
- `pipeline/unpark.py` and the human merge approval: operator actions that may reset the attempt counter or merge with a handle in place; `OtherActor` excludes them.
- The wording of the conflict brief, of the instruction paragraphs and of the pytest excerpt: inputs of the feedback functions.
- One tick reads the clock once per story in the model; the code reads it at each use.
- Queue: the blocking wait of `take` is modelled pass by pass, without timeouts of the condition variable.
- Worker pipe: a write that the pipe accepts only in part counts as sent; how a child is signalled and reaped is not modelled.
- Audit: the fields of a record other than number, link and hash are one text; JSON encoding is part of the hash.
- Dispatch: `dispatch_story` itself, the resource gates and the file-overlap notice; slots are computed once per tick, so no bound across processes is claimed.
- Dispatch.OneDispatchPerStory: assumes no lease runs out inside its own dispatch, because the code has no renewal; the converse is stated by SecondDispatchIff.
- Login: PKCE, cookies and redirects beyond their binding tests; token verification is an oracle. Times are real numbers, without rounding.
- LoginRate.SlidingWindow: assumes the client's entry is not evicted, because an eviction forgets its stamps; CallEvictsOldest says when that happens.
- Authority: reading and parsing layer files, layer digests, and the choice of the org layer among the layers; the fold starts from a validated org layer. NaN and infinities do not occur among its numbers.
- Jwks: fetching, size and time limits of the document, and the choice of a key from it.
- Registry: the models of a provider are its only parts that may be shared; deeper fields are one text.
- Registry: role and route resolution; documents whose JSON has another shape than a registry.
- Policy and authorization tables, plugin loading, the MCP shim, provider wire formats and schemas: claims about them are read off one branch.
- `pipeline/advance_review.py` and `pipeline/advance_pool.py`: an easier twin of the job handle protocol and a plain rotation.
