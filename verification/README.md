# GARIS engine: models and proofs

GARIS runs long tasks on a user's machine: a planner proposes steps, a runtime executes them behind gates, a
journal makes them survive a crash, and a handful of small protocols keep concurrent work from colliding. This
project models those protocols and proves what they promise over every run.

Where the program changes state step by step, the model is a class whose methods are proved against functions or
step relations on values; the theorems are then about every sequence of steps. The planner, the models, the tool
handlers, the user, the scheduler and the clock are arbitrary: their answers are inputs, and the death of the
process is a step that clears memory and keeps the committed rows.

| files | what they model |
|---|---|
| `LeaseTable`, `LeaseProofs`, `LeaseManager` | reader/writer leases on resources, the event objects waiters sleep on, and the dictionary of state objects behind them |
| `Outbox`, `OutboxProofs`, `EventOutbox` | events committed with the fact they report, at-least-once publishing, deduplication |
| `Rekey`, `Verifier`, `LoopSpec`, `LoopProofs`, `LoopRuns`, `AgentLoop` | step keys, the verdict, and the plan/act/repair/verify loop: as functions, what every run of it keeps, when a run repeats nothing, and the loop itself proved against the functions |
| `Journal`, `Lives`, `Resumes` | the step journal, a task over all its lives, and what a resumed task stands on when it is planned again |
| `Effects` | reserve-before-act effects, crashes and the start-up sweep |
| `Policy`, `Approvals`, `Runtime`, `Executor` | what needs a yes, single-use approvals, and the gate order that puts approvals and leases together |
| `Supervisor` | coroutines, slots, stops, resumes, crashes and recovery |
| `TaskLives` | the supervisor, the journals and the loops of all tasks as one state machine |
| `WebSocket`, `WebSocketLaws` | the frame codec of RFC 6455, sections 5.2 to 5.4 |
| `Router` | the order in which models are tried |
| `Notifications` | the gate in front of the user's attention |
| `Registry` | parameter validation, done by the planner and again by the runtime |
| `Config`, `Settings`, `ConfigStore` | building, setting and adopting a configuration: as trees, as declared forms, and in place on objects |

Assumptions that hold throughout: a table operation or a transaction is atomic; event ids, approval ids, task ids
are new when drawn; fingerprints are injective; where a statement needs it, time does not run backwards (the
statement says so).

## What was found

Where the code is narrower than its own documentation, the model follows the code, and the difference is stated as
a theorem.

- `writer` in the lease table is not a count. A holder that takes an exclusive lease on a key it already holds
  exclusively loses the outer lease when the inner one is released (`LeaseProofs.ReleaseUndoesAcquireIff` gives the
  exact condition). Nested exclusive leases lose no wake-up; a shared request by the writer of one of its keys can:
  granting a request can leave a waiter asleep on a key it could have, in some continuation without further such
  requests, exactly if it is one (`LeaseProofs.WakeupLostIff`).
- `rekey` promises unique keys. They are unique exactly when no base spells the number of another one's repetition
  (`Rekey.UniqueIff`). Keying again in front of new steps keeps the keys exactly when keying them again alone does
  (`Rekey.KeysKeptIff`), and that is: the keys are unique, no first use is too long or ends in a dash, and no number
  took a key over 48 characters whose base is shorter than 48 (`Rekey.FixpointIff`).
- So after a repair a new step can get the key of a step that ran: with three steps of the same stable base, of
  which the third fails, and a repair with that base, the second key is performed successfully twice, for every
  stable base shorter than 48 characters and for no stable base of 48 (`LoopRuns.ARunRepeatsAStep`,
  `Rekey.ThirdUseIff`). "No step runs twice" holds for every journal and every behaviour of the tools exactly when
  no path of failing steps through the planner's answers gives a key twice (`LoopRuns.NoStepSucceedsTwiceIff`).
- A task that resumes is planned again; the saved plan is never read, and the journal knows a step by its key alone.
  So a later plan with another action under a key that is done is reported as done without performing anything: for
  every two actions and every stable key, and the action happened in no life (`Resumes.DoneByName`); and the same
  action under another key is performed again (`Resumes.AgainByName`). Whatever the tools and the judge answer, every
  resumed success is about the step that earned the row exactly when every plan that the later life's chain of
  repairs can come to gives a done key to that same step (`Resumes.ResumedIsOwnIff`, over the lives of a task
  `Resumes.NextLifeIff`), and nothing that succeeded is begun again exactly when none of these plans has it under a
  key that is not done (`Resumes.NothingAgainIff`). Under the first condition "done" means that every required step of
  the final plan was performed (`Resumes.DoneWasPerformed`). The row itself cannot always tell: it keeps the tool and
  the parameters of the first start, also when a repair succeeded with others under that key
  (`Resumes.RowNamesFirst`, `Resumes.RowMisnames`).
- The event numbering of a task continues exactly while pruning leaves it a row; then it starts again at 1
  (`OutboxProofs.SequenceContinuesIff`).
- `EffectRecord.repeatable` says a failure may be attempted again, but `reserve` never grants an effect id twice
  (`Effects.RepeatableIsNeverRepeated`).
- Sorted keys do not keep a holder from waiting for itself: a refused request waits for nobody but its own holder
  exactly if it is exclusive and every key that refuses it is read by that holder alone
  (`LeaseProofs.WaitsForItselfIff`), and then only the release of that reader or the timeout ends the wait
  (`LeaseProofs.WaitsUntilReleased`, `LeaseProofs.ReadThenWriteWaits`).
- A task can be left with nobody to move it on in exactly three ways: an exception the agent loop does not expect
  leaves it running, a cancellation that reaches it in the queue leaves it pending, and a crash
  (`Supervisor.StrandedIff`); recovery picks up the running ones only (`Supervisor.RecoveryIff`), and a resume can
  be lost (`Supervisor.ResumeIsLost`). A polite shutdown is worse for a task than a crash: after it a task has a
  coroutine again exactly when its row was running and its cancellation did not reach it inside the loop; one that
  was reached there is stopped for good (`Supervisor.ShutdownIff`).
- A control frame inside a fragmented message ends the message (`WebSocketLaws.ControlCutsTheMessage`). The frames of
  a message come out under the opcode of the first exactly when the last one that is not a continuation has that
  opcode (`WebSocketLaws.ReassembledIff`).
- A fixed hourly notification limit is kept by every run with rising times exactly for limits from 1 to 256; above
  that the gate cannot count so far, and `cap + 1` notices in one moment are all heard
  (`Notifications.HourlyLimitIff`). Releasing held notices loses one exactly when the limit falls between two equal
  ones (`Notifications.ReleaseConservesIff`), and equal notices can be held: 64 others have to come in between
  (`Notifications.ReleaseLosesANotice`).
- Validating validated parameters again is not always the identity: a null given for a parameter with a default is
  dropped first and replaced by the default the second time (`Registry.ValidateAgainIff`).
- Adopting a dictionary follows "the same rules one level down" for instances only: a dictionary inside a dictionary
  is replaced whole and reported as one path (`Config.InnerTableReplaced`, `Config.InnerTableExample`).
- `set` stores what it is given under a key of a dictionary. A provider set that way is a plain dictionary until the
  next apply, whatever that one asks for, builds an instance of it (`Settings.RawEntryIsRebuilt`); what can be set
  without losing the declared form is `Settings.SetKeepsFormIff`, for many changes `Settings.ApplyKeepsFormIff`.
- The guard of the agent loop against a favourable verdict over no executed step is never used: the verifier never
  gives one (`LoopProofs.DoneMeans`).
- Pruning a task leaves its step rows in the journal; ids are not reused, so nothing reads them again.

## Model

| member | source | states |
|---|---|---|
| LeaseProofs.StepRefines | core/src/garis/runtime/leases.py:86-114 | every try, timeout and release keeps the counters of every key equal to the leases that are live on it, unless a holder nests exclusive leases |
| LeaseProofs.RunRefines | core/src/garis/runtime/leases.py:116-163 | the same over every run |
| LeaseProofs.ExclusiveExcludes | core/src/garis/runtime/leases.py:86-94 | in every reachable state a live exclusive lease shares a key only with leases of its own holder |
| LeaseProofs.GrantableIff | core/src/garis/runtime/leases.py:86-94 | in every reachable state without nested exclusive leases a request is granted at once exactly if every lease live on one of its keys agrees with it: readers share, a holder may write what it writes, everything else waits |
| LeaseProofs.TableEmptyIffIdle | core/src/garis/runtime/leases.py:103-114 | the table is empty exactly when no lease with keys is live, and then any request can be granted |
| LeaseProofs.ReleaseUndoesAcquireIff | core/src/garis/runtime/leases.py:96-114 | releasing restores the counters exactly unless the lease was exclusive on a key its holder already held exclusively |
| LeaseProofs.NestedExclusiveLosesTheOuterLease | core/src/garis/runtime/leases.py:96-109 | after such a nested release the outer lease is still live and anybody can take its key |
| LeaseProofs.WriterIsSafe | core/src/garis/runtime/leases.py:86-114 | however leases are nested, over every run in which the writer of a key gives nothing back it stays the writer, whatever others release, and nobody else is granted the key |
| LeaseProofs.StepAwake | core/src/garis/runtime/leases.py:128-159 | every step but a shared request by the writer of one of its keys keeps: each state object a waiter sleeps on still blocks it, or was dropped with its event set; nested exclusive leases included |
| LeaseProofs.RunAwake | core/src/garis/runtime/leases.py:128-159 | the same over every run without such a request |
| LeaseProofs.NoLostWakeup | core/src/garis/runtime/leases.py:135-159 | without such requests a waiter whose request could be granted has every event it sleeps on set, and is woken once its wait tasks run |
| LeaseProofs.RefusedSleeps | core/src/garis/runtime/leases.py:135-141 | a refused pass puts the coroutine to sleep on exactly the keys that refused it, with every event it sleeps on unset, and takes no lease |
| LeaseProofs.SleepsUntilGivenBack | core/src/garis/runtime/leases.py:135-159 | asleep it stays over every run in which it does not come round itself and nobody gives one of these keys back: nobody waits busily |
| LeaseProofs.GivenBackWakesIff | core/src/garis/runtime/leases.py:103-114 | in a sound state giving a lease back wakes a sleeping coroutine exactly if its wait tasks run and it sleeps on one of the keys; otherwise they find the event set exactly in that case |
| LeaseProofs.WakeupLostIff | core/src/garis/runtime/leases.py:86-159 | granting a request in any sound state can be followed by a lost wake-up, without another re-entrant shared request, exactly when it is itself a shared request by the writer of one of its keys |
| LeaseProofs.NestedSharedLosesAWakeup | core/src/garis/runtime/leases.py:86-114 | for every key and holder a run from the empty table, with one such request, that ends with a waiter asleep on a key it could have |
| LeaseProofs.WaitsForItselfIff | core/src/garis/runtime/leases.py:11-13 | a refused request has only leases of its own holder in its way exactly if it is exclusive and every refusing key is read by that holder alone |
| LeaseProofs.WaitsUntilReleased | core/src/garis/runtime/leases.py:86-159 | an exclusive request for a key with a live reader stays refused over every run that does not release that reader, also when it is the same holder's |
| LeaseProofs.ReadThenWriteWaits | core/src/garis/runtime/leases.py:116-159 | for every key and holder, reading the key and then asking to write it is such a wait |
| LeaseManagers.LeaseManager.CanTakeKey | core/src/garis/runtime/leases.py:86-94 | the answer is the one of the lease table: another writer or, for exclusive requests, a reader refuses |
| LeaseManagers.LeaseManager.StateOf | core/src/garis/runtime/leases.py:79-84 | an attached state object is kept, otherwise a new one with its event set is attached |
| LeaseManagers.LeaseManager.TakeKey | core/src/garis/runtime/leases.py:96-101 | one key is taken, every other key keeps counters and event |
| LeaseManagers.LeaseManager.GiveBackKey | core/src/garis/runtime/leases.py:103-114 | one key is given back; its state object gets its event set and is dropped when free |
| LeaseManagers.LeaseManager.TryAcquire | core/src/garis/runtime/leases.py:124-141 | one pass grants all keys or none; a refusal clears the event of exactly the blocking keys and returns exactly their state objects |
| LeaseManagers.LeaseManager.Requested | core/src/garis/runtime/leases.py:124-124 | the keys of a request without empty names and repetitions |
| LeaseManagers.LeaseManager.BlockingStates | core/src/garis/runtime/leases.py:136-138 | the state objects of exactly the keys that block |
| LeaseManagers.LeaseManager.ReleaseKeys | core/src/garis/runtime/leases.py:161-163 | every key of the lease is given back |
| LeaseManagers.Handle.Release | core/src/garis/runtime/leases.py:54-58 | the first release gives the keys back, every later one changes nothing |
| OutboxProofs.StepInv | core/src/garis/kernel/outbox.py:42-119 | every stage, fetch, emit, mark, crash and prune keeps: tasks are published from the front, and consumers have a prefix |
| OutboxProofs.RunInv | core/src/garis/kernel/outbox.py:42-119 | the same over every run |
| OutboxProofs.ExactlyOnceInOrder | core/src/garis/kernel/outbox.py:98-119 | what a deduplicating consumer has of a task is a prefix of its committed events in order, nothing else, and all of them once nothing waits, wherever drains were cut off |
| OutboxProofs.DeliveredAsStaged | core/src/garis/kernel/outbox.py:61-119 | over every run, event by event and in order: what a deduplicating consumer has of a task has the id, topic, payload and time that some stage committed for that task, and all of them once nothing waits |
| OutboxProofs.EmittedAsStaged | core/src/garis/kernel/outbox.py:98-119 | every event ever put on the bus, a repetition or not, has the id, topic, task, payload and time of a stage of the run |
| OutboxProofs.PrunedIff | core/src/garis/kernel/outbox.py:134-140 | pruning takes exactly the published rows from before the cutoff |
| OutboxProofs.SequenceContinuesIff | core/src/garis/kernel/outbox.py:57-61 | numbering continues exactly while the task has a row; otherwise it starts again at 1 |
| OutboxProofs.SeenInSequence | core/src/garis/kernel/outbox.py:57-61 | without pruning, a consumer sees a task numbered 1, 2, 3 without gaps |
| OutboxProofs.DrainIsARun | core/src/garis/kernel/outbox.py:98-119 | a drain that is not cut off is a run of fetch, emits and mark with the effect of the method |
| OutboxProofs.PendingMeans | core/src/garis/kernel/outbox.py:90-96 | a batch has as many events as wait, up to the limit, and leaves none behind that comes before one it takes |
| OutboxProofs.DrainTakes | core/src/garis/kernel/outbox.py:98-119 | in every reachable state, after a drain that is not cut off exactly its batch waits no longer, so drains with a positive limit empty the outbox |
| EventOutboxes.EventOutbox.Stage | core/src/garis/kernel/outbox.py:42-74 | a new unpublished row with exactly the id, topic, task, payload and time that were given and the next number of its task, or nothing when the id is taken |
| EventOutboxes.EventOutbox.Last | core/src/garis/kernel/outbox.py:57-60 | the largest number the task has in the table, 0 without rows |
| EventOutboxes.EventOutbox.Pending | core/src/garis/kernel/outbox.py:90-96 | unpublished events in order of time and number, the first `limit` of them |
| EventOutboxes.EventOutbox.Drain | core/src/garis/kernel/outbox.py:98-119 | the pending events are put on the bus in order and then marked, and no other row changes |
| EventOutboxes.EventOutbox.PruneOlder | core/src/garis/kernel/outbox.py:134-140 | exactly the published rows older than the cutoff go |
| EventOutboxes.Deduplicate | core/src/garis/kernel/outbox.py:154-164 | the first event of every id in order of arrival |
| Rekey.UniqueIff | core/src/garis/agent/goal.py:115-123 | keys are pairwise distinct exactly when no base equals another base followed by the number of one of its repetitions |
| Rekey.NumberedInjective | core/src/garis/agent/goal.py:122-122 | a numbered key determines its base and its number |
| Rekey.SlugHasShape | core/src/garis/agent/goal.py:126-128 | a slug has only lower-case letters, digits and dashes, does not begin with a dash and fits 48 characters |
| Rekey.SlugMeans | core/src/garis/agent/goal.py:126-128 | a slug is the collapsed text without the dashes at both ends, cut at 48 characters |
| Rekey.CollapsedLetters | core/src/garis/agent/goal.py:127-127 | collapsing keeps the letters and digits, in order and in lower case |
| Rekey.RunIsOneDash | core/src/garis/agent/goal.py:127-127 | a run of other characters becomes one dash, whatever stands before and after it |
| Rekey.DecMeans | core/src/garis/agent/goal.py:122-122 | the numeral of a repetition stands for its number and has no leading zero |
| Rekey.UnnamedKeys | core/src/garis/agent/goal.py:119-120 | steps without a usable key are named by their place, counted from one |
| Rekey.KeyStableIff | core/src/garis/agent/goal.py:126-128 | keying again leaves a produced key's slug alone exactly when it fits the limit and does not end in a dash |
| Rekey.KeysKeptIff | core/src/garis/agent/loop.py:261-266 | keys survive being keyed again in front of any new steps exactly when keying them again alone leaves them as they are |
| Rekey.FixpointIff | core/src/garis/agent/goal.py:115-128 | when keying again leaves the keys of a plan alone, in terms of the bases: unique, no first use too long or ending in a dash, no number over the limit on a base that does not fill it |
| Rekey.FixpointUnique | core/src/garis/agent/goal.py:115-123 | keys that keying again leaves alone are pairwise distinct |
| Rekey.ThirdUseIff | core/src/garis/agent/goal.py:115-128 | after two steps with one stable base, a third step keyed with it later gets the second one's key exactly when the base is shorter than 48 characters |
| Rekey.RekeyedPrefix | core/src/garis/agent/goal.py:118-122 | the key of a step depends only on the steps before it |
| Rekey.TruncationRenames | core/src/garis/agent/goal.py:126-128 | two steps with the same 47-character base: keying again renames the second, and a new step gets the key the second one had |
| Rekey.RekeySteps | core/src/garis/agent/goal.py:115-123 | the loop over the steps gives every step its key from the count of its base so far |
| Journals.Journal.StepStarted | core/src/garis/tasks/store.py:126-136 | a new key gets a running row with the tool and the parameters of the step; an existing row becomes running with one more attempt and keeps its own; other rows stay |
| Journals.Journal.StepFinished | core/src/garis/tasks/store.py:138-145 | the row becomes done or failed with its result, other rows stay |
| Journals.Completed | core/src/garis/tasks/store.py:147-157 | exactly the done steps |
| Journals.Journal.ResetRunningSteps | core/src/garis/tasks/store.py:165-171 | running rows become pending, every other row stays |
| Lives.RowMeans | core/src/garis/tasks/store.py:126-145 | over any journalled events: the row of a step counts its starts, has the value it was finished with last, and is running, done or failed as the journal was last told |
| Lives.LifeOnce | core/src/garis/agent/loop.py:304-342 | one life performs a step successfully at most once, and journals it unless it died in between |
| Lives.AtMostOncePlusCrashes | core/src/garis/agent/loop.py:158-180 | over all lives each key succeeds at most once, plus once for every crash between its success and its row; a key that is done never runs again (what the key stands for is in the `Resumes` rows) |
| Lives.DoneStays | core/src/garis/tasks/store.py:147-157 | a done row keeps its result through every later life, and no later life touches the step |
| Lives.CutIsOrderly | core/src/garis/agent/loop.py:308-342 | a life cut off anywhere still started, performed and finished its steps in order |
| Resumes.ResumedIsOwnIff | core/src/garis/agent/loop.py:163-180 | for any table and history, whatever tools and judge answer: every success a life resumes was earned by that very tool with those parameters, exactly when every plan its chain of repairs can come to gives a done key to that step |
| Resumes.NextLifeIff | core/src/garis/agent/loop.py:120-180 | the same for the table that any lives of a task left, recovered or not: every done key has an earner whose value its row has, and the next life resumes only what was earned exactly when the planner gives every done key to the step of its earner |
| Resumes.NothingAgainIff | core/src/garis/agent/loop.py:120-180 | likewise nothing that succeeded before is begun again, exactly when no such plan has it under a key that is not done |
| Resumes.TakenMeans | core/src/garis/agent/loop.py:163-186 | the resumed evidence of a run is exactly that of the steps it took whose keys were done, with the results of those rows; the steps it started are exactly the others, in order |
| Resumes.EvidenceIsJournalled | core/src/garis/agent/loop.py:166-228 | in a run with well-keyed plans every success an outcome shows, resumed or not, has the value that the journal has for that step afterwards |
| Resumes.InstinctIsDoneIff | core/src/garis/agent/loop.py:278-300 | a reflex, a plan of one step, that succeeds now or did in an earlier life ends done exactly if its value is usable, and its evidence shows that value |
| Resumes.DoneIsEarned | core/src/garis/tasks/store.py:138-157 | a key that is done after any lives was journalled right after the success of its earner, with the value that success returned, and no later success under the key replaced it |
| Resumes.DoneWasPerformed | core/src/garis/agent/loop.py:278-300 | in a run that resumes only what its own steps earned, every success in the outcome is an action that happened in this or an earlier life, and done means that of every required step of the final plan |
| Resumes.DoneByName | core/src/garis/agent/loop.py:166-180 | for every two actions and every stable key: a second life planned with the other action under the key that is done ends as done with no event, and the action happened in no life |
| Resumes.AgainByName | core/src/garis/agent/loop.py:120-180 | for every action and two stable keys: a second life planned with it under the other key performs it again |
| Resumes.RowNamesFirst | core/src/garis/tasks/store.py:126-136 | the tool and the parameters in a row are those its key was first started with |
| Resumes.RowMisnames | core/src/garis/tasks/store.py:126-136 | for every two actions a run whose row is done by the second and names the first |
| Verifier.CheckMeans | core/src/garis/agent/verify.py:83-182 | when the goal counts as met, and who is said to have checked it, in terms of the evidence alone |
| Verifier.CheckedByIff | core/src/garis/agent/verify.py:83-182 | who judged, exactly when: the rules, a model or nobody; a verdict counts as checked unless nobody judged; how many points are unmet |
| LoopSpec.WellKeyedIff | core/src/garis/agent/goal.py:115-128 | when a keyed plan is one that keying again leaves alone, in terms of the bases |
| LoopSpec.SanitisedMeans | core/src/garis/agent/goal.py:97-113 | a model's plan keeps its first 40 steps with new keys and nothing else changed, is blocked exactly if it had no step, and keeps the question that was asked |
| LoopSpec.SplicedPrefix | core/src/garis/agent/loop.py:259-266 | a repair keeps the steps that are behind the loop and puts those of the repair after them, keys apart |
| LoopSpec.SplicedKeepsKeysIff | core/src/garis/agent/loop.py:259-266 | no repair renames a step behind the loop exactly when keying those steps again leaves their keys alone |
| LoopSpec.SplicedKeepsKeys | core/src/garis/agent/loop.py:259-266 | in a well-keyed plan it keeps their keys too |
| LoopProofs.StepExtends | core/src/garis/agent/loop.py:304-342 | executing a step keeps the trace orderly: nothing done is touched, nothing is finished that was not performed |
| LoopProofs.StepSpends | core/src/garis/agent/loop.py:339-342 | a step spends its key exactly when it succeeds, and counts as one execution |
| LoopProofs.AdvanceInv | core/src/garis/agent/loop.py:214-240 | the loop invariant is kept when a step succeeds, or fails as optional |
| LoopProofs.SpliceInv | core/src/garis/agent/loop.py:242-270 | the loop invariant is kept when a repair replaces the rest: evidence, spent keys and the bound on executions |
| AgentLoop.Loop.Try | core/src/garis/agent/loop.py:311-337 | the attempts of a step, as the function says that `LoopProofs.TryMeans` bounds and describes |
| LoopProofs.TryMeans | core/src/garis/agent/loop.py:311-337 | at most max(1, max_repair_attempts) actions, every one but the last a retryable failure, and all of them used only on a retryable failure |
| AgentLoop.Loop.RunStep | core/src/garis/agent/loop.py:304-342 | the journal gets the start, the attempts and the outcome, or no outcome when the flow was stopped, and its rows are the replay of these events |
| LoopProofs.SkipInv | core/src/garis/agent/loop.py:166-180 | a step that is done is put behind the loop without an event, and the loop invariant is kept |
| AgentLoop.Loop.Pass | core/src/garis/agent/loop.py:163-276 | one pass of the loop on the journal is one turn |
| AgentLoop.Loop.Work | core/src/garis/agent/loop.py:156-276 | the loop on the journal is the iteration of the turns until the plan is worked through, broken off or stopped |
| LoopSpec.Turn | core/src/garis/agent/loop.py:163-276 | a turn that goes on uses up a repair or puts one step of the same plan behind the loop |
| LoopProofs.WorkKeeps | core/src/garis/agent/loop.py:156-276 | from any state inside the loop its end keeps the trace orderly, repeats nothing in well-keyed plans, and has executed at most 3 * 40 steps, however it ends |
| LoopProofs.WorkLeaves | core/src/garis/agent/loop.py:182-276 | the loop ends with the plan worked through, broken off at a required failed step with no repair left, or stopped as the last reply says |
| LoopProofs.WorkBudget | core/src/garis/agent/loop.py:304-342 | no more actions than max(1, max_repair_attempts) for every executed step |
| LoopProofs.ConcludeIsHonest | core/src/garis/agent/loop.py:278-300 | done means every required step has successful evidence, in well-keyed plans backed by a key that was done before or finished by the run, some step succeeded and the verifier said so; a run that was broken off has failed (which action a key stands for is `Resumes.DoneWasPerformed`) |
| AgentLoop.Loop.Run | core/src/garis/agent/loop.py:115-300 | a whole life on the journal is the run of the functions: journal rows are the replay of its events, well-keyed plans repeat nothing, at most 120 steps are executed, the outcome is honest and shows every value a tool returned with a success and no other, and a life that a step stopped ends as the last reply says |
| LoopProofs.RunKeeps | core/src/garis/agent/loop.py:115-300 | the same for every planner, runtime, judge and journal: the trace, the bounds of 120 executions and of the actions, an honest outcome, and evidence that is about the steps of the plan |
| LoopProofs.WorkEarns | core/src/garis/agent/loop.py:214-230 | tool by tool and in order, the values the evidence of executed successes shows are those journalled with their success, and each was returned with success by the runtime during this run |
| LoopRuns.NoStepSucceedsTwiceIff | core/src/garis/agent/loop.py:242-270 | no step of a run succeeds twice, whatever the tools answer and whatever was done before, exactly when the planner's answers never give a key twice along a path of failing steps |
| LoopRuns.WellKeyedIsFresh | core/src/garis/agent/loop.py:259-266 | the planner's answers are of that kind when all plans along every chain of repairs are well keyed |
| LoopRuns.ARunRepeatsAStep | core/src/garis/agent/loop.py:259-266 | for every stable base shorter than 48 characters a run that performs a step successfully twice |
| LoopRuns.PathRuns | core/src/garis/agent/loop.py:163-276 | every such path is taken by some run, which succeeds with exactly its keys |
| LoopRuns.SucceededOnceIff | core/src/garis/agent/loop.py:331-333 | the list of successes has no key twice exactly when every key succeeded at most once |
| LoopProofs.RunIsALife | core/src/garis/agent/loop.py:115-300 | what a run with well-keyed plans keeps makes it, cut off anywhere, one more life of its task |
| Effects.EffectStore.ReserveEffect | core/src/garis/kernel/effects.py:110-166 | a new id is granted and gets a row; any existing id changes nothing, whatever its state |
| Effects.EffectStore.Complete | core/src/garis/kernel/effects.py:170-180 | the row of the effect is settled, every other row stays |
| Effects.EffectStore.SweepUnsettled | core/src/garis/kernel/effects.py:225-243 | exactly the open reservations up to the cutoff become uncertain, with the time; every other row stays |
| Effects.SweepClosesIff | core/src/garis/kernel/effects.py:232-243 | a sweep leaves no open reservation exactly when none is newer than its cutoff |
| Effects.AtMostOnce | core/src/garis/kernel/effects.py:110-243 | over every run with workers and crashes: granted once, done once, done rows did happen, failed rows did not succeed |
| Effects.RowsAreForever | core/src/garis/kernel/effects.py:128-143 | rows keep their arguments, are never removed, never open again and are final once settled |
| Effects.AskedAgain | core/src/garis/kernel/effects.py:110-166 | over every continuation: once an effect was granted, asking with the same arguments is answered with its row as it is, and other arguments are refused, unless none were given at first |
| Effects.ReportMeans | core/src/garis/kernel/effects.py:170-211 | what a worker reports makes the row failed, uncertain or done as the action went, with the time, and changes no other row |
| Effects.RepeatableIsNeverRepeated | core/src/garis/kernel/effects.py:65-76 | a failed record, which calls itself repeatable, is granted to nobody and stays as it is over every continuation, and nothing is done under it |
| Effects.SweepMarksInFlight | core/src/garis/kernel/effects.py:225-243 | after a crash and its sweep exactly the effects in flight are uncertain and every other row is as it was |
| Effects.StepInv | core/src/garis/kernel/effects.py:110-243 | every step of workers, sweep and crashes keeps the invariant behind these |
| Policy.ConfirmEffects | core/src/garis/runtime/policy.py:186-193 | the configured effects that exist, and always the non-negotiable ones |
| Policy.NamedIff | core/src/garis/runtime/policy.py:186-193 | every effect has one name, and no other text names an effect |
| Policy.ConfiguredIff | core/src/garis/runtime/policy.py:186-193 | an effect is configured exactly if its name is among those given |
| Policy.VerdictIff | core/src/garis/runtime/policy.py:72-182 | whatever the order of the rules: refused exactly by a guardrail, silent exactly when no rule objects |
| Policy.ConfigurationCannotLoosen | core/src/garis/runtime/policy.py:50-87 | no configuration allows a non-negotiable effect silently, and none changes a guardrail refusal |
| Policy.StricterAllowsLess | core/src/garis/runtime/policy.py:72-141 | what a stricter configuration runs silently, a looser one does too |
| Approvals.ApprovalBroker.Newest | core/src/garis/runtime/approvals.py:181-196 | the newest unspent row of the operation in that state, or none when there is none |
| Approvals.ApprovalBroker.Request | core/src/garis/runtime/approvals.py:73-125 | a waiting request of the operation is reused, otherwise one is opened |
| Approvals.ApprovalBroker.ResolveRequest | core/src/garis/runtime/approvals.py:129-153 | any existing row takes the answer and its time, also when it was answered before; whether it is spent, its operation and every other row stay |
| Approvals.ApprovalBroker.Consume | core/src/garis/runtime/approvals.py:198-200 | the row is spent |
| Approvals.ApprovalBroker.ExpireOlderThan | core/src/garis/runtime/approvals.py:215-221 | exactly the pending rows older than the cutoff expire |
| Approvals.ApprovalBroker.RequireApproval | core/src/garis/runtime/executor.py:184-212 | a denial is burned first, then an approval is spent, only then the user is asked |
| Approvals.StepInv | core/src/garis/runtime/approvals.py:73-221 | every attempt, run, answer, expiry and crash keeps: tickets and runs have rows of their own, one request waits per operation |
| Approvals.OneYesOneRun | core/src/garis/runtime/executor.py:184-200 | every run that needed a yes has its own approved, spent row of the same operation; an operation runs at most as often as it was approved |
| Approvals.EveryRunWasApproved | core/src/garis/runtime/executor.py:184-212 | behind the row of every run there is a step of the history in which a person said yes to that row |
| Approvals.SpentStaysSpent | core/src/garis/runtime/approvals.py:198-200 | a spent row stays spent whatever is answered later |
| Approvals.DenialsBurnFirst | core/src/garis/runtime/executor.py:187-194 | while an unspent denial exists no attempt passes, and each burns exactly one |
| Approvals.AnswerDecides | core/src/garis/runtime/approvals.py:129-196 | an answer to an unspent row decides the next attempt of its operation: a no refuses it, a yes lets it pass exactly if no other no of that operation is unspent |
| Approvals.WaitingIsDecided | core/src/garis/runtime/executor.py:184-212 | over every run: where a request waits and no no of its operation is unspent, a yes lets every attempt that comes next pass, and a no refuses it |
| Approvals.AskAndBeAnswered | core/src/garis/runtime/executor.py:184-212 | who asks and is told yes passes next time on that very request; who is told no is refused on it |
| Approvals.NewestFirst | core/src/garis/runtime/approvals.py:73-196 | the gate uses the newest unspent answer of its kind, and a new request waits under the time it was made |
| Approvals.ExpiresIff | core/src/garis/runtime/approvals.py:215-221 | a row expires exactly if it waits and was asked for before the cutoff; nothing else about any row changes |
| Runtime.StepGated | core/src/garis/runtime/executor.py:94-159 | with many actions in flight, every step keeps: whoever passed the gate has the approval it needed |
| Runtime.EveryRunHasItsYes | core/src/garis/runtime/executor.py:122-141 | whatever is answered or reconfigured meanwhile, a handler with a non-negotiable effect ran only on its own approved row of that operation |
| Runtime.StepLeased | core/src/garis/runtime/executor.py:143-159 | every step keeps: a lease is live for exactly the actions that hold or run |
| Runtime.HandlersDoNotCollide | core/src/garis/runtime/executor.py:143-159 | while a mutating handler runs on a resource no other holder's handler does; every exit gives the lease back |
| Runtime.TryIff | core/src/garis/runtime/executor.py:143-159 | a pass of the wait succeeds exactly if no action that holds or runs on one of its resources stands in the way; actions that only read run side by side |
| Executor.Runtime.Perform | core/src/garis/runtime/executor.py:94-159 | the outcome of the first gate that stops the action, what each outcome leaves in both tables, and the audit row it writes |
| Executor.Runtime.RequireApproval | core/src/garis/runtime/executor.py:139-141 | only a verdict of confirm touches the approvals |
| Executor.Runtime.Carry | core/src/garis/runtime/executor.py:143-159 | the handler runs only under a granted lease, and the lease is given back on every exit |
| Executor.HandlerRunsIff | core/src/garis/runtime/executor.py:94-159 | the handler runs exactly when every gate passes, and on the very approval that was spent |
| Executor.OutcomeIff | core/src/garis/runtime/executor.py:94-159 | each of the ten outcomes exactly under its own condition, whatever the order of the gates |
| Executor.PerformIsARun | core/src/garis/runtime/executor.py:94-159 | what one perform does alone is what some run of the protocol does |
| Supervisor.StepInv | core/src/garis/tasks/supervisor.py:76-197 | every submit, resume, stop, start, end, cancellation, crash and recovery keeps the invariant behind the next rows |
| Supervisor.OneCoroutinePerTask | core/src/garis/tasks/supervisor.py:125-151 | at most one live coroutine per task, its row pending or running, and never more than max(1, max_parallel) inside the loop |
| Supervisor.LimitIsUsed | core/src/garis/tasks/supervisor.py:53-74 | over every run, restarts with other limits included: the limit of the last start, or one, is never exceeded, and a coroutine in the queue can begin exactly if fewer are inside the loop |
| Supervisor.CoroutineIff | core/src/garis/tasks/supervisor.py:110-151 | after any step: which coroutines still live, which are cancelled (by a stop of their task or a shutdown, and by nothing else), and which are inside the loop |
| Supervisor.NewCoroutine | core/src/garis/tasks/supervisor.py:76-128 | a new coroutine waits in the queue of a task that had none and was just submitted or resumed, or was left running by the last process |
| Supervisor.AskedForIsAttached | core/src/garis/tasks/supervisor.py:76-108 | whoever is submitted, or resumed while blocked or pending, has a coroutine and is pending |
| Supervisor.TerminalIsForever | core/src/garis/tasks/supervisor.py:95-121 | finished, failed and stopped are never left until the row is pruned |
| Supervisor.StateIff | core/src/garis/tasks/supervisor.py:76-197 | after any step a row has a state exactly if the step is one that brings it there, or it had it, was not pruned and the step brought it nowhere else; which steps bring which state is said step by step |
| Supervisor.RowsTellTheTruth | core/src/garis/tasks/supervisor.py:130-181 | over every run: a row is finished, failed or blocked only after a coroutine of that task ended so, and stopped only after an abort, a cancellation inside the loop or a stop without a coroutine |
| Supervisor.StrandedIff | core/src/garis/tasks/supervisor.py:130-151 | exactly three kinds of step leave a task with nobody to move it on |
| Supervisor.RecoveryIff | core/src/garis/tasks/store.py:173-181 | recovery attends exactly the tasks left running |
| Supervisor.PendingWaitsForTheUser | core/src/garis/tasks/supervisor.py:95-121 | a pending task without a coroutine moves only on a resume or stop of that task |
| Supervisor.ResumeIsLost | core/src/garis/tasks/supervisor.py:95-128 | stopping a queued task, resuming it and delivering the cancellation leaves it pending with no coroutine |
| Supervisor.ShutdownIff | core/src/garis/tasks/supervisor.py:138-197 | after a shutdown, any delivered cancellations, the end of the process and recovery, a task that had a coroutine has one exactly when its row was running and its cancellation did not reach it inside the loop; reached there, its row is stopped |
| Supervisor.TaskSupervisor.LaunchTask | core/src/garis/tasks/supervisor.py:125-128 | nothing happens while the remembered coroutine lives, otherwise a new one is queued and remembered |
| Supervisor.TaskSupervisor.SubmitTask | core/src/garis/tasks/supervisor.py:76-93 | a pending row and a queued coroutine |
| Supervisor.TaskSupervisor.ResumeTask | core/src/garis/tasks/supervisor.py:95-108 | a blocked or pending task becomes pending and has a coroutine; any other stays |
| Supervisor.TaskSupervisor.StopTask | core/src/garis/tasks/supervisor.py:110-121 | a live coroutine is cancelled, otherwise an active row is stopped; the answer says whether there was either |
| Supervisor.TaskSupervisor.BeginRun | core/src/garis/tasks/supervisor.py:130-133 | a permit is taken and the row is running |
| Supervisor.TaskSupervisor.ApplyOutcome | core/src/garis/tasks/supervisor.py:136-181 | the row becomes finished when the loop ended done, failed when it failed, blocked when it waits for the user, stopped after an abort and stays running after an unexpected error; the permit comes back and the coroutine is done |
| Supervisor.TaskSupervisor.Interrupted | core/src/garis/tasks/supervisor.py:138-149 | inside the loop the row is stopped; in the queue the row stays |
| Supervisor.TaskSupervisor.RecoverTasks | core/src/garis/tasks/supervisor.py:185-197 | every running task has a live coroutine afterwards |
| TaskLives.StepInv | core/src/garis/tasks/supervisor.py:76-197 | every submit, resume, stop, start, end, cancellation, prune, crash and recovery, and everything the loops of all tasks journal and perform in between, keeps: every task's table is what its lives left, and one life of a task is under way at most |
| TaskLives.AtMostOncePlusCuts | core/src/garis/tasks/supervisor.py:130-197 | over every such interleaving a step succeeds at most once, plus once for every crash, cancellation or unexpected error that cut a life of its task |
| TaskLives.DoneForever | core/src/garis/tasks/supervisor.py:130-197 | over every such interleaving a step that is done never succeeds again, and its row stays done |
| TaskLives.LoopEmits | core/src/garis/agent/loop.py:115-300 | what the loop journals and performs with well-keyed plans are steps of this protocol |
| TaskLives.JournalStays | core/src/garis/tasks/store.py:165-171 | recovery puts the steps of a task that was left running back to pending, and no other step of the supervisor touches a journal row |
| TaskLives.RunBecomesRow | core/src/garis/tasks/supervisor.py:153-181 | when a run of the loop ends, the row of its task is finished exactly when the outcome is done, failed when it failed, blocked when it is blocked, and stopped when an abort came through |
| WebSocket.ValueOfBigEndian | core/src/garis/api/websocket.py:110-113 | unpacking undoes packing for every value that fits |
| WebSocket.ValueBounded | core/src/garis/api/websocket.py:53-58 | packing undoes unpacking, for any number of bytes |
| WebSocket.ValueOfBoth | core/src/garis/api/websocket.py:110-113 | the first bytes weigh the most: the value of two pieces is that of the first moved up by the length of the second, plus that of the second |
| WebSocket.XorIff | core/src/garis/api/websocket.py:127-127 | exclusive or is the one byte whose binary digit is 1 exactly where those of the two bytes differ, with digits by division and remainder |
| WebSocket.VeilsIff | core/src/garis/api/websocket.py:124-127 | masked bytes are exactly those whose byte i differs from byte i of the payload in the digits that key byte i % 4 has |
| WebSocket.MaskTwice | core/src/garis/api/websocket.py:124-127 | masking twice with the same key gives the payload back |
| WebSocket.EncodeIsWire | core/src/garis/api/websocket.py:47-59 | server frames are final, unmasked frames in the shortest length form |
| WebSocket.StreamReader.ReadHeader | core/src/garis/api/websocket.py:101-113 | the header in all three length forms |
| WebSocket.StreamReader.ReadOne | core/src/garis/api/websocket.py:100-129 | one frame, or the first error: cut off, too long, mask missing, mask not allowed |
| WebSocket.StreamReader.ReadFrame | core/src/garis/api/websocket.py:88-136 | one message, every piece unmasked with its own key, continuations joined, and what follows is left unread |
| WebSocketLaws.WireIsRead | core/src/garis/api/websocket.py:105-129 | a frame in any fitting length form is read back whole exactly when it is short enough and masked as expected |
| WebSocketLaws.WrittenIff | core/src/garis/api/websocket.py:105-127 | the bytes of a frame are its header followed by bytes that are given digit by digit, and no others |
| WebSocketLaws.WrittenMessageIsRead | core/src/garis/api/websocket.py:88-136 | frames whose masked bytes are given digit by digit, up to the first final one, are read as their payloads in order under the last non-continuation opcode |
| WebSocketLaws.HelloIsWritten | core/src/garis/api/websocket.py:47-59 | the unmasked text example in section 5.7 of RFC 6455, byte by byte |
| WebSocketLaws.SplitHelloIsRead | core/src/garis/api/websocket.py:88-136 | the fragmented example there, read back as one text |
| WebSocketLaws.RoundTripIff | core/src/garis/api/websocket.py:47-59 | an encoded frame is read back as it was exactly for payloads up to 1 MiB and opcodes 1 to 15 |
| WebSocketLaws.ListRoundTrip | core/src/garis/api/websocket.py:88-136 | a list of encoded frames is read back as that list with nothing left over |
| WebSocketLaws.MessageIsRead | core/src/garis/api/websocket.py:131-136 | frames up to the first final one give their payloads in order under the last non-continuation opcode |
| WebSocketLaws.SplitMessageReassembles | core/src/garis/api/websocket.py:131-136 | a message split anywhere, with any masks, comes back whole under its first opcode |
| WebSocketLaws.ReassembledIff | core/src/garis/api/websocket.py:131-136 | frames up to the first final one come out whole under the opcode of the first exactly when the last of them that is not a continuation has that opcode |
| WebSocketLaws.ControlCutsTheMessage | core/src/garis/api/websocket.py:131-136 | a control frame inside a message takes the pieces before it, and the rest comes out as a text message |
| WebSocketLaws.CutMessage | core/src/garis/api/websocket.py:101-103 | a message that was cut off is never delivered |
| Router.SpreadKeepsEachProvider | core/src/garis/models/router.py:171-191 | every provider keeps exactly its own choices in the order of the ranking |
| Router.SpreadIsAPermutation | core/src/garis/models/router.py:171-191 | nothing is lost and nothing is repeated |
| Router.SpreadOrder | core/src/garis/models/router.py:182-191 | every provider's k-th choice comes before any (k+1)-th, and a round goes by first appearance |
| Router.SpreadIff | core/src/garis/models/router.py:171-191 | the spread is the only list with these properties |
| Router.Reorder | core/src/garis/models/router.py:185-191 | the grouping and interleaving loops compute the spread |
| Router.Group | core/src/garis/models/router.py:185-187 | providers by first appearance, each with its own choices in order |
| Router.Complete | core/src/garis/models/router.py:253-307 | calls go down the spread until one succeeds, never twice to one choice; it gives up only after every provider with an eligible model failed |
| Notifications.DuplicatesAreSpaced | core/src/garis/notifications.py:115-134 | two remembered notices with one fingerprint within 900 seconds have at least 64 others between them |
| Notifications.VerdictIff | core/src/garis/notifications.py:132-152 | what is heard and what is held, as conditions on the notice and the moment |
| Notifications.ConsiderMeans | core/src/garis/notifications.py:115-195 | with rising times, what becomes of a notice and what is remembered of it: forgotten when it is a repetition or too unimportant, heard or kept otherwise, critical ones heard always; both are remembered, and nothing else changes |
| Notifications.RepetitionIsDropped | core/src/garis/notifications.py:115-182 | over every continuation: what was heard or kept, critical or not, changes nothing when it comes again within 900 seconds, unless 64 others were remembered since |
| Notifications.LimitReachedIff | core/src/garis/notifications.py:190-195 | with rising times the hourly limit is reached exactly if it lies between 1 and 256 and that many were told within the hour |
| Notifications.HourlyLimitHolds | core/src/garis/notifications.py:190-195 | with rising times and limits that stay between 1 and a number up to 256, no closed hour holds more limited deliveries than that number |
| Notifications.HourlyLimitIff | core/src/garis/notifications.py:94-195 | a fixed limit is kept in every closed hour by every run with rising times exactly when it lies between 1 and 256 |
| Notifications.TailSuffices | core/src/garis/notifications.py:94-95 | forgetting all but the newest entries does not change a count below their number |
| Notifications.ReleaseConservesIff | core/src/garis/notifications.py:156-170 | the most important go first and none that was handed over is kept; none is lost exactly when the limit does not fall between two equal held notices, by their rank among the held |
| Notifications.ImportantFirst | core/src/garis/notifications.py:156-170 | what is handed over is in order of importance and then of age, before all that stays; how many, also for negative limits |
| Notifications.ReleaseLosesANotice | core/src/garis/notifications.py:115-170 | a run that holds one notice twice and hands it over once |
| Notifications.Ranked | core/src/garis/notifications.py:163-163 | every held notice is handed over at its rank: after the more important, the older and the earlier held ones |
| Notifications.NotificationGate.IsDuplicate | core/src/garis/notifications.py:179-182 | whether the window of the newest 64 holds the fingerprint recently enough |
| Notifications.NotificationGate.OverRateLimit | core/src/garis/notifications.py:190-195 | whether the newest 256 deliveries reach the limit within the hour |
| Notifications.NotificationGate.ConsiderNotice | core/src/garis/notifications.py:115-152 | the verdict by the rules in order, and what delivering or holding records |
| Notifications.NotificationGate.ReleaseHeld | core/src/garis/notifications.py:156-170 | the batch, what stays held, and one delivery recorded per notice |
| Registry.CoerceTwice | core/src/garis/runtime/registry.py:42-85 | an accepted value is accepted again unchanged, for every type, choice list and length limit |
| Registry.CoerceMeans | core/src/garis/runtime/registry.py:42-85 | an accepted value has the declared type, is a choice and fits; exactly such values are accepted unchanged |
| Registry.CoerceErrorIff | core/src/garis/runtime/registry.py:42-85 | which error it is, exactly when: no conversion, then no choice, then too long |
| Registry.ToIntMeans | core/src/garis/runtime/registry.py:47-48 | a whole number is the parsed text or the number cut toward zero, and anything else is refused |
| Registry.ToBoolMeans | core/src/garis/runtime/registry.py:51-61 | a truth value is one of the accepted words, or whether a value is not empty; another word is refused |
| Registry.Validate | core/src/garis/runtime/registry.py:126-146 | unknown names first, then the parameters in order, the first failure decides |
| Registry.FieldMeans | core/src/garis/runtime/registry.py:126-146 | what each parameter contributes: its coerced value, its default, nothing, or an error |
| Registry.ValidationError | core/src/garis/runtime/registry.py:126-146 | all undeclared names are refused first; otherwise the error is that of the first parameter that fails |
| Registry.ValidateAgainIff | core/src/garis/runtime/registry.py:126-146 | validating the result gives it back exactly when every default filled in is acceptable as it is and no null hid a default |
| Registry.TwoPassesSettle | core/src/garis/runtime/registry.py:126-146 | with acceptable defaults the second pass never fails and the third changes nothing |
| Config.AdoptedEqualsSource | core/src/garis/config.py:359-392 | after adoption the target equals the source |
| Config.IdentityKeptIff | core/src/garis/config.py:359-392 | an object of the target keeps its identity exactly when its path leads through merged pairs to itself, or to two equal values that hold it |
| Config.ReplacedWhole | core/src/garis/config.py:368-391 | where the two sides differ and are not merged, the source's own value is taken over whole |
| Config.ReportedIff | core/src/garis/config.py:359-392 | a path is reported exactly when everything above it is merged and the two sides differ there beyond merging |
| Config.InnerTableReplaced | core/src/garis/config.py:384-391 | a dictionary inside a dictionary is replaced whole when it differs, and reported as itself, not below |
| Config.InnerTableExample | core/src/garis/config.py:309-392 | the same for one provider stored as a plain dictionary: the new object is kept and the provider is reported |
| Config.NothingReportedIff | core/src/garis/config.py:271-283 | nothing is reported exactly when the two were equal |
| Settings.RebuiltIff | core/src/garis/config.py:327-356 | building from the written form gives the value back exactly when it has the declared form |
| Settings.BuiltMeans | core/src/garis/config.py:327-356 | a field that is not given has its default, one that is given what is built from it, and there are no others |
| Settings.UnknownIsIgnored | core/src/garis/config.py:327-356 | two dictionaries that give the same for every field build the same |
| Settings.SetKeepsFormIff | core/src/garis/config.py:298-315 | setting one value keeps the declared form of the whole exactly when what is stored is allowed at the place the path leads to |
| Settings.StoredMeans | core/src/garis/config.py:298-315 | what is stored: in a dictionary the value as given, in a field what it is coerced to, nothing where the path does not lead |
| Settings.ApplyKeepsFormIff | core/src/garis/settings.py:59-79 | applying any number of changes to unrelated places keeps it exactly when each of them stores what is allowed where it is stored |
| Settings.EveryChangeIsThere | core/src/garis/settings.py:59-79 | changes to unrelated places are all there afterwards, each with what it stores in the value as it was |
| Settings.NothingElseChangesIff | core/src/garis/settings.py:66-74 | applying nothing changes nothing exactly when the configuration has the declared form, and then applying changes what was asked and nothing else |
| Settings.RawEntryIsRebuilt | core/src/garis/config.py:309-351 | a value set as an entry among instances stays as given, and the next apply changes it |
| Settings.AppliedWholeOrNotAtAll | core/src/garis/settings.py:59-79 | settings are applied exactly when all can be set and the whole is accepted; then the same object equals the changed copy |
| ConfigStore.Memory.AdoptInto | core/src/garis/config.py:359-392 | in a memory of objects, in place: the target becomes the tree described above, nothing outside it changes, and the returned paths are exactly the reported ones |
| ConfigStore.Memory.AdoptName | core/src/garis/config.py:361-391 | one field or key: removed, merged as the kind of its owner has it, replaced or left alone |
| ConfigStore.Memory.Place | core/src/garis/config.py:327-356 | new objects for a whole value, apart from all that were there and none of them used twice |
| ConfigStore.Memory.Apply | core/src/garis/settings.py:59-79 | on the objects: a rejected apply leaves every object as it was; an accepted one makes the same configuration object equal to what is wanted and touches nothing outside it; the configuration is without sharing again, so the next apply can follow |
| ConfigStore.Memory.ApplyAll | core/src/garis/settings.py:59-79 | after any list of applies it is the same object, without sharing, equal to what they lead to one after the other, and nothing outside it changed |
| ConfigStore.SomeDepthServes | core/src/garis/settings.py:59-79 | the depth that this is stated at is no restriction: for every list of applies there is one at which the configuration is the same tree |

## Left out

- Lives.AtMostOncePlusCrashes: counts the successes of a key, because the journal knows keys only; when the same action comes under another key is stated by the `Resumes` rows.
- LoopProofs.ConcludeIsHonest: ties a resumed success to its key; which action the key stands for needs the history of the task and is stated by `Resumes.DoneWasPerformed` and `Resumes.ResumedIsOwnIff`.
- Settings.ApplyKeepsFormIff: changes one of whose paths leads through another are not covered; there a later change can replace what an earlier one broke.
- SQLite, JSON and file formats: a table is a map or a sequence of rows and every statement or transaction is atomic.
- Leases: wall-clock deadlines are a timeout step that may come at any time; the sort order of the keys has no effect and is not modelled; path, app, device and host keys are given strings.
- Outbox: `history`; payload keys that shadow header fields on the bus. The order theorems are about an outbox with a bus.
- Agent loop: plans are values, not shared step objects (the `rekey` loop itself is modelled on objects); the parameters of a step are compared as a whole; prompts, reports, back-off sleeps and bus events; slugs of text outside ASCII, whose lower-casing is not modelled.
- Agent loop: the planner and the tools answer by the number of the question; an environment that reacts to the run is the one that happens to give the answers of that run.
- Tasks: what a crash leaves of a life is a prefix of the events of its run; a recovery may come at any moment in the model, also when the program would not call it.
- Effects: the mismatch test uses the arguments hash as an injective name; `outcome`, `evidence` and reasons of a row.
- Policy: prompts, and which effect the rule text names; a parameter naming a protected file, and the larger of the declared and estimated cost and size, are inputs.
- Approvals: `wait` with its event per request, and prompts.
- Runtime: `Executor` performs one action while nothing else moves; `Runtime` has the interleavings. Tool handlers, the vault and HTTP are inputs. Nested actions are further actions of the protocol.
- Supervisor: stop flags, which nothing reads; fairness of the semaphore; errors of the database while a state is written.
- WebSocket: the handshake, `Connection` and text decoding. Bytes that have not arrived yet are not modelled: the reader knows the rest of the stream and whether its end was already seen.
- Router: scoring and filtering of candidates, usage accounting and streaming.
- Notifications: quiet hours come in as a yes or no; hashing is a given fingerprint; `listen` and `describe`.
- Registry: the language's own text and number conversions and its equality are parameters; infinite and undefined floats.
- Config: field order and the order of reported paths; dotted paths are sequences of names; leaves are compared as wholes, so values the language calls equal keep their old form; what `validate` accepts and how `set` coerces a leaf are inputs; `reload`, polling and saving of `SettingsService`.
- Tool handlers, HTTP, provider adapters, cryptography, the desktop application, memory search, audit redaction and the in-memory capability registry.
