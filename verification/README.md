# Verification of RedCultureService

RedCultureService is a game backend whose services keep their state in memory under a
mutex. This project models that state and the steps that change it, and proves what
the services promise about it, over every run and every interleaving.

Each service is there twice. As values: the state is a datatype and each block of code
that runs under the mutex is a function on it; the properties are lemmas about these
functions and about runs of them. And in place: a class with the fields of the
service, whose methods have the service's loops and updates, each proved to do what the
function says. Where an operation releases its lock in the middle, its halves are
separate steps and anything may happen between them.

| files | service |
|---|---|
| `RoomModel`, `RoomInvariant`, `RoomRuns`, `RoomTick`, `RoomLoss`, `RoomPromises`, `RoomService` | rooms, the match queue and the matching tick |
| `TaskQueue`, `QueuePromises` | the retrying task queue that the orchestrator and the speech service share |
| `Text`, `Prompt`, `PromptOrder`, `AiModel`, `AiFlows`, `AiOutcomes`, `AiPrompts`, `AiPromises`, `AiService` | prompts, AI tasks and question flows |
| `GameplayModel`, `GameplayOnce`, `GameplayOutcome`, `GameplayRun`, `GameplayService` | interactions on top of the orchestrator |
| `SyncModel`, `SyncReplay`, `SyncLog`, `SyncMovement`, `SyncAccepts`, `SyncService` | versioned player tables, update log, snapshots, movement authority |
| `TtsModel`, `TtsCache`, `TtsIndex`, `TtsKeys`, `TtsClearing`, `TtsPromises`, `TtsService` | speech tasks and the audio cache |
| `FrameCodec`, `TcpReader`, `TcpWriter`, `TcpService`, `RateLimiter` | frames, one connection, its limiter |
| `Sessions`, `Bcrypt` | session tables, salt encoding, comparison of hashes |
| `Common`, `Arithmetic` | sequences and division |

Conventions. Clock readings are parameters; where the order of readings matters, runs
require it. The iteration order of an unordered table is arbitrary: methods pick the
next key without saying how, and lemmas hold for every choice. All durations and times
of a module are in one unit, except where the code cuts to milliseconds and that
matters (`SyncModel`). Bytes of frames are integers below 256 and shifts by whole bytes
are multiplications and divisions; the salt encoder works on bit vectors. A thrown
length error is a refusal or a rejection.

## Findings

Where the code does not keep what it aims at, the model follows the code and a lemma
shows it. Where there is an exact condition for it, another lemma gives it.

- `leaveRoom` does not look whether the room is closed. Leaving a closed room that
  keeps other members reopens it (`RoomRuns.LeaveForwardIff`), which can put a player
  into two open rooms (`RoomRuns.UnguardedRunBreaks`) and make a tick lose a ticket
  (`RoomTick.UnguardedTickLosesTicket`). The exact conditions are `RoomRuns.LeaveInvIff`
  and `RoomLoss.TickConservesIff`.
- Finishing an attempt overwrites a cancel that came in between, without a trace
  (`TaskQueue.CancelIsOverwritten`). A cancelled task stays cancelled exactly if no
  attempt of it is in flight (`TaskQueue.CancelLastsIff`). Such a cancel also frees a
  place in the queue too early, so that the capacity can be exceeded
  (`TaskQueue.CancelExceedsCapacity`), exactly if a cancelled task is requeued while the
  queue is full (`TaskQueue.CapacityKeptIff`). `AiModel` and `TtsModel` state both
  conditions for the two services.
- Overwriting a cached audio leaves its old id in the index for ever
  (`TtsIndex.IndexCanBreak`, `TtsIndex.StaleForEver`; exactly then:
  `TtsIndex.IndexIsBijectionIff`).
- The cache key joins text, voice id, language and numbers without escaping, so that
  different requests can share a key whatever the hash (`TtsKeys.SeparatorsCollide`,
  `TtsKeys.VoicesCollide`), and one is then served the other's audio
  (`TtsKeys.TwinIsServed`). Exactly which requests collide: `TtsKeys.KeyIff` with
  `TtsKeys.SpelledAlikeIff`; exactly which have one to collide with: `TtsKeys.TwinIff`.
- With the largest retry setting the number of attempts wraps to zero, and every task
  has a single attempt (`TaskQueue.LimitIff`).
- Metadata values that contain braces make prompts depend on table order
  (`PromptOrder.BracesMakeOrderMatter`). Every pass is exact exactly if no value creates
  a token (`PromptOrder.RenderingIsExactIff`, for two passes `PromptOrder.TwoPassesIff`),
  and then order does not matter (`PromptOrder.OrderDoesNotMatter`, for two passes
  exactly: `PromptOrder.OrdersAgreeIff`).
- The limiter allows twice its limit within one window length
  (`RateLimiter.TwiceIsReached`), unless a window is a single clock unit
  (`RateLimiter.LimitHoldsIff`).

## Model

| member | source | states |
|---|---|---|
| RoomTick.TickChunksBucket | src/room/room_match_service.cpp:233-289 | For every mode and room size k, the live tickets of that bucket are cut in queue order into consecutive groups of k; each group is a room of this tick and exactly the leftover newest tickets stay queued, in order |
| RoomTick.CutCounts | src/room/room_match_service.cpp:233-289 | Such a cut of n tickets has n / k groups and leaves n mod k tickets |
| RoomTick.TickOpensRooms | src/room/room_match_service.cpp:268-288 | Each group becomes one full playing room under the next fresh id, its members in queue order, none ready; no other room changes |
| RoomTick.TickConserves | src/room/room_match_service.cpp:217-292 | Every ticket is expired, matched or still queued, exactly once: as multisets, tickets before = expired + matched + remaining; the queue keeps its order |
| RoomRuns.RoundKeepsAll | src/room/room_match_service.cpp:258-288 | Under the invariant a round of the matching loop never has its room refused, so the branch at lines 274-276 that would lose tickets is unreachable |
| RoomTick.FirstFullGroup | src/room/room_match_service.cpp:238-252 | The first seed whose group is full is the oldest ticket of its bucket, and its group is the first k tickets of the bucket |
| RoomTick.UnguardedTickLosesTicket | src/room/room_match_service.cpp:273-276 | A concrete run, with a player leaving a closed room, after which a tick takes a ticket out of the queue that is then neither expired, matched nor queued |
| RoomLoss.TickConservesIff | src/room/room_match_service.cpp:258-276 | In every state that room operations reach, guarded or not, a tick accounts for every ticket if and only if no group that the live queue alone would give starts with a player who is in an open room already |
| RoomLoss.MatchConservesIff | src/room/room_match_service.cpp:233-289 | The same for the matching loop |
| RoomInvariant.StepKeeps | src/room/room_match_service.cpp:26-131 | Every operation, without any guard, keeps the queue and the player index in bijection, tickets in id order, members distinct, open rooms with 1 to max_players members, and ids fresh |
| RoomRuns.EveryRun | src/room/room_match_service.cpp:164-215 | The same over every run |
| RoomRuns.EveryGuardedRun | src/room/room_match_service.cpp:26-131 | Over every run in which nobody leaves a closed room that still has other members: also no player is in two open rooms, no queued player is in an open room, and room states only move waiting, playing, closed |
| RoomRuns.LeaveForwardIff | src/room/room_match_service.cpp:66-92 | Leaving moves a room state backwards if and only if the room was closed and keeps another member |
| RoomRuns.LeaveInvIff | src/room/room_match_service.cpp:66-92 | Leaving breaks the invariant if and only if it reopens a closed room around a member who is queued or in an open room elsewhere |
| RoomRuns.UnguardedRunBreaks | src/room/room_match_service.cpp:66-92 | A concrete run that puts a player into two open rooms |
| RoomRuns.StepKeepsAll | src/room/room_match_service.cpp:26-131 | One guarded step keeps the whole invariant and moves no room backwards |
| RoomRuns.ActiveRoomIsUnique | src/room/room_match_service.cpp:338-352 | Under the invariant at most one open room has the player, so the scan of the unordered table has one possible answer, and that player has no ticket |
| RoomInvariant.CancelIsRemoval | src/room/room_match_service.cpp:191-204 | Cancelling by ticket id removes exactly the ticket with that id and keeps queue and index in step |
| RoomInvariant.SeatGroupSpec | src/room/room_match_service.cpp:268-288 | Opening the room of a group is refused if and only if the first player is in an open room; otherwise the only change is one full playing room with all members in order |
| RoomPromises.JoinIff | src/room/room_match_service.cpp:26-64 | A named player in no open room gets into an open room if and only if it has a free place; then the members are the old ones followed by that player, not ready, the player has no ticket, the state follows from the number of members, and nothing else changes. A member joins again without any change; a refusal changes nothing |
| RoomPromises.RoomFills | src/room/room_match_service.cpp:26-64 | A room created for n players is filled by n - 1 different joiners: it then has exactly the host and them, in that order, plays if it starts by itself, and the next one is refused |
| RoomPromises.CreateIff | src/room/room_match_service.cpp:308-336 | A room is created if and only if the host is named, in no open room, and the size is not zero; the new room, the ticket that goes, and nothing else |
| RoomPromises.LeaveIff | src/room/room_match_service.cpp:66-92 | Leaving succeeds if and only if the player is in the room; exactly that player goes, the others keep their order, and the state follows |
| RoomPromises.CloseIff | src/room/room_match_service.cpp:94-106 | Closing succeeds if and only if the room exists, and changes its state alone |
| RoomPromises.ReadyIff | src/room/room_match_service.cpp:108-131 | The flag can be set exactly by members of an open room, and exactly the own flag changes, to the value given |
| RoomPromises.EnqueueIff | src/room/room_match_service.cpp:164-189 | A ticket is issued if and only if the player is named, in no open room and without a ticket, and the size is not zero; it goes to the end with the request and the time of the call |
| RoomPromises.CancelIff | src/room/room_match_service.cpp:191-215 | Cancelling by id and by player succeeds if and only if there is such a ticket, and takes exactly that one out |
| RoomPromises.ExpiresIff | src/room/room_match_service.cpp:223-231 | A tick returns as expired exactly the queued tickets whose age has reached their timeout, and their players have none left |
| RoomPromises.TicketsWereAsked | src/room/room_match_service.cpp:164-189 | Over every run a queued ticket bears exactly the request and the time of an enqueue call of the run |
| RoomPromises.GroupIsMatched | src/room/room_match_service.cpp:217-292 | n free players who ask for a room of n with nobody else waiting all sit, in that order, in one new playing room after a tick before their timeout |
| RoomService.RoomMatchService.CreateRoom | src/room/room_match_service.cpp:308-336 | In place: refusals in the order of the code, the host's ticket removed, one room added; new tables and result are those of the specification |
| RoomService.RoomMatchService.JoinRoom | src/room/room_match_service.cpp:26-64 | In place: refusals, joining again as a no-op, ticket removed, member appended, state updated |
| RoomService.RoomMatchService.LeaveRoom | src/room/room_match_service.cpp:66-92 | In place: all entries of the player removed; an empty room closes, any other has its state recomputed, also when it was closed |
| RoomService.RoomMatchService.CloseRoom | src/room/room_match_service.cpp:94-106 | In place: the room becomes closed and keeps its members |
| RoomService.RoomMatchService.SetReady | src/room/room_match_service.cpp:108-131 | In place: the first entry of the player gets the flag, nothing else changes; refused in a closed room |
| RoomService.RoomMatchService.EnqueueMatch | src/room/room_match_service.cpp:164-189 | In place: refusals, else a ticket with the next id at the end of the queue and in the index |
| RoomService.RoomMatchService.CancelMatch | src/room/room_match_service.cpp:191-204 | In place: the first ticket with the id leaves queue and index |
| RoomService.RoomMatchService.CancelMatchByPlayer | src/room/room_match_service.cpp:206-215 | In place: the player's ticket leaves queue and index; false and no change when there is none |
| RoomService.RoomMatchService.FindActiveRoomIdByPlayer | src/room/room_match_service.cpp:338-352 | The scan in arbitrary order finds a room if and only if some open room has the player, and then an open room of that player |
| RoomService.RoomMatchService.RemovePlayerTicket | src/room/room_match_service.cpp:354-366 | In place: all tickets with the indexed id and the index entry are gone |
| RoomService.RoomMatchService.ExpireTickets | src/room/room_match_service.cpp:223-231 | The erase-while-iterating loop removes exactly the tickets whose age reached their timeout, from queue and index, and returns them in queue order |
| RoomService.RoomMatchService.GrowGroup | src/room/room_match_service.cpp:239-247 | The inner loop collects the seed and then its bucket partners in queue order up to the room size |
| RoomService.RoomMatchService.FindGroup | src/room/room_match_service.cpp:236-256 | The seed loop returns the group of the first seed whose group is full, or nothing when there is none |
| RoomService.RoomMatchService.FormRooms | src/room/room_match_service.cpp:233-289 | The outer loop ends, and its rooms and remaining queue are those of the recursive matching specification |
| RoomService.RoomMatchService.Tick | src/room/room_match_service.cpp:217-292 | Expiry and matching together: tables, created rooms and expired tickets are those that TickChunksBucket, TickOpensRooms and TickConserves are about |
| TaskQueue.LoadBounded | src/ai_orchestrator/ai_orchestrator_service.cpp:175-211 | With at most T attempts in flight, queued tasks plus attempts in flight never exceed max_queued_tasks + T, however cancels interleave |
| TaskQueue.UndisturbedLoadBounded | src/ai_orchestrator/ai_orchestrator_service.cpp:267-277 | If no cancel falls between the halves of an attempt, queued plus running tasks never exceed max_queued_tasks |
| TaskQueue.CancelExceedsCapacity | src/ai_orchestrator/ai_orchestrator_service.cpp:159-173 | That condition is needed: a concrete run with capacity 1 ends with two queued tasks |
| TaskQueue.CancelIsOverwritten | src/ai_orchestrator/ai_orchestrator_service.cpp:332-371 | A cancel in mid-attempt leaves no trace: every run in which that attempt ends, whatever else happens in it, is also possible after the cancel and ends in the very same state |
| TaskQueue.CancelLastsIff | src/ai_orchestrator/ai_orchestrator_service.cpp:159-173 | In every state that keeps the attempt invariant, a cancelled task stays cancelled in all continuations if and only if no attempt of it is in flight |
| TaskQueue.OverfillsIff | src/ai_orchestrator/ai_orchestrator_service.cpp:355-371 | From at most max_queued_tasks queued and running tasks, a step goes above if and only if it requeues a task that a cancel had taken out while the queue is exactly full |
| TaskQueue.CapacityKeptIff | src/ai_orchestrator/ai_orchestrator_service.cpp:267-371 | Along a whole run queued and running tasks stay within max_queued_tasks if and only if no such requeue occurs in it |
| TaskQueue.RunKeepsAttempts | src/ai_orchestrator/ai_orchestrator_service.cpp:300-371 | Over every run each task has at most one attempt in flight, attempts never exceed the limit, and due times and end times respect the sums of backoffs |
| TaskQueue.RetryTimes | src/ai_orchestrator/ai_orchestrator_service.cpp:355-371 | With R retries (R + 1 not wrapping) and backoff B: a queued task with a attempts has a <= R and is due no earlier than created + B a(a+1)/2; none has failed or timed out before created + B R(R+1)/2 |
| TaskQueue.DelayClosedForm | src/ai_orchestrator/ai_orchestrator_service.cpp:358-364 | The backoffs B, 2B, ..., aB add up to B a(a+1)/2 |
| TaskQueue.LimitIff | src/ai_orchestrator/ai_orchestrator_service.cpp:23-25 | With a 32-bit setting of R retries, some run brings a task to R + 1 attempts if and only if R + 1 does not wrap; at the largest setting no run brings any task to a second attempt |
| TaskQueue.AttemptsIff | src/ai_orchestrator/ai_orchestrator_service.cpp:351-371 | Runs from the start bring a task to exactly the numbers of attempts up to the limit, which is at least one |
| TaskQueue.EndsAtLimit | src/ai_orchestrator/ai_orchestrator_service.cpp:355-371 | Over every run a task that has failed or timed out has had exactly as many attempts as the limit |
| QueuePromises.TasksTellTheirStory | src/ai_orchestrator/ai_orchestrator_service.cpp:300-371 | Over every run the last thing that happened to a task tells its status and its time: added, taken, cancelled, or an attempt that ended so; a task that waits for another attempt is due exactly backoff times its attempts after the last one ended |
| QueuePromises.FinishIff | src/ai_orchestrator/ai_orchestrator_service.cpp:345-371 | An attempt succeeds if and only if it was answered in time; otherwise the task waits again if and only if fewer than R + 1 attempts (in 32 bits) were made, and else has timed out if it was late and failed if not |
| QueuePromises.TakeIff | src/ai_orchestrator/ai_orchestrator_service.cpp:300-330 | First come, first served: a task is started only if it is due and no other due task was created earlier |
| QueuePromises.SomeStartsIff | src/ai_orchestrator/ai_orchestrator_service.cpp:300-330 | Some task can be started if and only if some queued task is due |
| QueuePromises.AddIff | src/ai_orchestrator/ai_orchestrator_service.cpp:271-277 | A task is taken if and only if fewer than max_queued_tasks are queued or running |
| TaskQueue.ClientCallsBounded | src/voice_tts/voice_tts_service.cpp:100-137 | Over every run the client has been called exactly once per attempt counted, so at most (attempt limit) times the tasks created |
| Prompt.ReplaceAll | src/ai_orchestrator/ai_orchestrator_service.cpp:11-21 | The loop that edits the growing text ends (the part not scanned shrinks) and its result is leftmost non-overlapping replacement |
| Prompt.ReplacedRejoins | src/ai_orchestrator/ai_orchestrator_service.cpp:11-21 | What that is: the text is its stretches joined by the searched string, the result the same stretches joined by the replacement |
| Prompt.StretchesAreFree | src/ai_orchestrator/ai_orchestrator_service.cpp:11-21 | No occurrence of the searched string starts inside a stretch, so the occurrences replaced are the leftmost ones |
| Prompt.PassFills | src/ai_orchestrator/ai_orchestrator_service.cpp:413-427 | One pass over a template of brace-free text and tokens fills exactly the tokens of that name, whatever the value |
| Prompt.RenderingIsSubstitution | src/ai_orchestrator/ai_orchestrator_service.cpp:413-427 | With brace-free keys and values, the sequence of passes is one simultaneous substitution, whatever order the metadata table yields |
| PromptOrder.BracesMakeOrderMatter | src/ai_orchestrator/ai_orchestrator_service.cpp:422-424 | One template, one context, two orders of its metadata table, two different prompts |
| PromptOrder.RenderingIsExactIff | src/ai_orchestrator/ai_orchestrator_service.cpp:413-427 | With any values: every pass of a rendering fills exactly its own tokens of the template if and only if no value filled in earlier has made a new occurrence of a token before its pass (or that token fills itself); then the prompt is the simultaneous substitution |
| PromptOrder.OrderDoesNotMatter | src/ai_orchestrator/ai_orchestrator_service.cpp:422-424 | If that holds for two orders of the metadata table, both give the same prompt |
| PromptOrder.AllExactIff | src/ai_orchestrator/ai_orchestrator_service.cpp:413-427 | The same for any list of brace-free, pairwise different names |
| PromptOrder.NextIsExactIff | src/ai_orchestrator/ai_orchestrator_service.cpp:413-427 | The same for the next pass after any passes |
| PromptOrder.PassFillsIff | src/ai_orchestrator/ai_orchestrator_service.cpp:11-21 | For any pieces of text, with braces or not: one pass fills exactly the tokens of its name if and only if the text contains that token just as often as the pieces do, or the value is the token itself |
| PromptOrder.TwoPassesIff | src/ai_orchestrator/ai_orchestrator_service.cpp:422-424 | Two passes are the simultaneous substitution if and only if filling the first creates no occurrence of the second token, or the second fills itself |
| PromptOrder.OrdersAgreeIff | src/ai_orchestrator/ai_orchestrator_service.cpp:422-424 | When one of two values creates no token of the other name, the two orders give the same text if and only if the other creates none either |
| Prompt.RenderPrompt | src/ai_orchestrator/ai_orchestrator_service.cpp:413-427 | The method with its loop over the metadata computes that sequence of passes, for any template and any order |
| AiFlows.EveryRun | src/ai_orchestrator/ai_orchestrator_service.cpp:90-150 | Over every interleaving a flow's stage only advances, failed and completed flows never change, the question is fixed once posed and the answer once given, and the stage agrees with the flow's tasks |
| AiFlows.StageTellsTasks | src/ai_orchestrator/ai_orchestrator_service.cpp:373-401 | From the start: a flow has exactly one question and at most one explanation task; if it waits or is further on, its question is the text of its succeeded question task; if completed, its explanation is that of its succeeded explanation task, which was asked with this question and answer |
| AiFlows.StepKeepsInv | src/ai_orchestrator/ai_orchestrator_service.cpp:332-401 | One step, of any kind, keeps the agreement of stages and tasks |
| AiFlows.StepAdvances | src/ai_orchestrator/ai_orchestrator_service.cpp:119-150 | One step, of any kind, only advances flows |
| AiOutcomes.StageIff | src/ai_orchestrator/ai_orchestrator_service.cpp:373-401 | Over every run: a flow has failed if and only if the last attempt of one of its tasks failed or its answer met a full queue, is completed if and only if its explanation was answered in time; otherwise its question is posed, and its answer taken, if and only if the client answered in time, and an answer was submitted while the queue had room |
| AiOutcomes.StepMoves | src/ai_orchestrator/ai_orchestrator_service.cpp:373-401 | One event moves a flow exactly as its meaning says (question posed, answer taken, explanation told, lost), with the text the client returned, and any other leaves it as it is |
| AiOutcomes.SucceededMovesOn | src/ai_orchestrator/ai_orchestrator_service.cpp:386-393 | Over every run: once the question task has succeeded the flow has left its first stage, and once the explanation task has, its third |
| AiOutcomes.FailureIsTold | src/ai_orchestrator/ai_orchestrator_service.cpp:397-400 | A flow that loses a task for good changes only to failed, with the error of that task |
| AiPromises.FlowCompletes | src/ai_orchestrator/ai_orchestrator_service.cpp:90-150 | From the start, for any texts: a run in which a flow goes through all its stages to completed, with exactly the question and explanation the client returned and the answer given, and the two prompts rendered from the two templates |
| AiPrompts.PromptIsSubstitution | src/ai_orchestrator/ai_orchestrator_service.cpp:283-298 | Over every run: the prompt of every task whose template is brace-free text and tokens, in a brace-free context, is that template with all tokens replaced by their values in the task's context |
| AiPrompts.FlowsGoBack | src/ai_orchestrator/ai_orchestrator_service.cpp:90-150 | Over every run every flow goes back to a start call of the run: question and explanation task have that call's templates, or the configured ones, and its context, for the explanation with the question posed and the answer taken in it |
| AiPrompts.TasksGoBack | src/ai_orchestrator/ai_orchestrator_service.cpp:283-286 | Over every run a single task has kind, context and template of an enqueue call of the run; an empty template becomes the explanation prompt for an explanation and the question prompt for any other kind |
| AiPrompts.TellsQuestionAndAnswer | src/ai_orchestrator/ai_orchestrator_service.cpp:130-136 | In an explanation prompt the tokens for the user's input and for the question are filled with the answer taken and the question posed |
| AiPromises.EnqueueIff | src/ai_orchestrator/ai_orchestrator_service.cpp:267-298 | A task is taken if and only if fewer than max_queued_tasks are queued or running; the task it becomes |
| AiPromises.StartIff | src/ai_orchestrator/ai_orchestrator_service.cpp:90-117 | A flow is started if and only if its question task is taken; the flow it becomes, and the flow id used up in any case |
| AiPromises.SubmitIff | src/ai_orchestrator/ai_orchestrator_service.cpp:119-150 | An answer is taken if and only if the flow waits and the queue has room; the flow and the task it becomes, or the failed flow when the queue is full |
| AiPromises.CancelIff | src/ai_orchestrator/ai_orchestrator_service.cpp:159-173 | Cancelling succeeds if and only if the task exists and has neither succeeded nor failed; the status and time that change |
| AiPromises.FinishOutcome | src/ai_orchestrator/ai_orchestrator_service.cpp:332-371 | Status, due time, error text and response of a task after an attempt, in terms of what the client answered and how long it took |
| AiModel.RunIsQueueRun | src/ai_orchestrator/ai_orchestrator_service.cpp:267-371 | Every run of the orchestrator is a run of the task queue, so its bounds hold here |
| AiModel.OrchestratorBounds | src/ai_orchestrator/ai_orchestrator_service.cpp:267-371 | Load, client calls and attempts of the orchestrator, over every interleaving of flows, answers, cancels and ticks |
| AiModel.UndisturbedOrchestrator | src/ai_orchestrator/ai_orchestrator_service.cpp:267-277 | If no cancelTask call of the run hits a task with an attempt in flight, queued plus running tasks stay within max_queued_tasks |
| AiModel.CancelLastsIff | src/ai_orchestrator/ai_orchestrator_service.cpp:159-173 | A cancelled AI task stays cancelled, whatever the orchestrator does next, if and only if no attempt of it is in flight |
| AiModel.CapacityKeptIff | src/ai_orchestrator/ai_orchestrator_service.cpp:267-371 | Along a run of the orchestrator the capacity is kept if and only if no attempt that ends requeues a cancelled task while the queue is full |
| AiModel.OrchestratorRetryTimes | src/ai_orchestrator/ai_orchestrator_service.cpp:355-371 | The retry times of the queue, for orchestrator tasks |
| AiService.AiOrchestratorService.EnqueueTask | src/ai_orchestrator/ai_orchestrator_service.cpp:267-298 | In place: refused when queued and running tasks fill the queue, else one new queued task with its rendered prompt; keeps tasks and flows in agreement if the flow exists |
| AiService.AiOrchestratorService.StartQuestionFlow | src/ai_orchestrator/ai_orchestrator_service.cpp:90-117 | In place: a flow with its question task; a full queue uses up a flow id and stores nothing; every task's flow and every flow's tasks still exist, as after each method here |
| AiService.AiOrchestratorService.SubmitAnswer | src/ai_orchestrator/ai_orchestrator_service.cpp:119-150 | In place: accepted only while the flow waits; a full queue leaves the flow failed with the answer stored |
| AiService.AiOrchestratorService.CancelTask | src/ai_orchestrator/ai_orchestrator_service.cpp:159-173 | In place: refused only for succeeded and failed tasks |
| AiService.AiOrchestratorService.TakeNextTask | src/ai_orchestrator/ai_orchestrator_service.cpp:300-330 | The scan in arbitrary order starts a due task of which none was created earlier, or finds that none is due |
| AiService.AiOrchestratorService.FinishTask | src/ai_orchestrator/ai_orchestrator_service.cpp:332-371 | In place: success, retry or final failure, whatever the task's status has become, and the flow told of it |
| AiService.AiOrchestratorService.UpdateFlowAfterTask | src/ai_orchestrator/ai_orchestrator_service.cpp:373-401 | In place: the flow's stage and text after its task ended |
| GameplayOnce.AnsweredAtMostOnce | src/gameplay/cultural_interaction_service.cpp:141-228 | Over every interleaving of calls, ticks and cancels no interaction is answered successfully twice, and its stored answer is the one its flow took |
| GameplayOnce.EveryRun | src/gameplay/cultural_interaction_service.cpp:65-248 | Over every run a completed interaction is never written again, and both tables, the flows and the calls under way stay consistent |
| GameplayOnce.GateIsFree | src/gameplay/cultural_interaction_service.cpp:178-181 | Whenever the orchestrator would accept this call's answer, the copy made under the other lock is still current, open, and no other call is past the gate for that interaction |
| GameplayOnce.WriteKeeps | src/gameplay/cultural_interaction_service.cpp:225-228 | Writing the completed copy back keeps the invariant and changes no completed interaction |
| GameplayOnce.StoreKeeps | src/gameplay/cultural_interaction_service.cpp:120-124 | Storing a new interaction keeps the invariant and changes no completed interaction |
| GameplayOutcome.ExplanationIsTheFlows | src/gameplay/cultural_interaction_service.cpp:186-228 | Over every run a completed interaction has the answer of the call that completed it, the flow's explanation as that call read it back, or the fallback if that was empty, and the flow's explanation task; if the flow was completed by then, the text is that of its succeeded explanation task |
| GameplayOutcome.QuestionIsTheFlows | src/gameplay/cultural_interaction_service.cpp:101-114 | Over every run an interaction is its player's and its flow's, and its question is the flow's as the starting call read it, or the fallback; the flow still has that question if it was posed |
| GameplayOutcome.LookupIff | src/gameplay/cultural_interaction_service.cpp:153-176 | Which interactions a call may answer, and which refusal it gets otherwise |
| GameplayRun.InteractionCompletes | src/gameplay/cultural_interaction_service.cpp:65-248 | From the start, for any texts: a run in which an interaction is begun, answered once and completed, with exactly the texts of client and player, or the fallbacks for empty ones |
| GameplayService.CulturalInteractionService.AllocateInteraction | src/gameplay/cultural_interaction_service.cpp:101-114 | An id never used, and a state filled from the flow with a fallback question; keeps the two tables inverse to each other |
| GameplayService.CulturalInteractionService.StoreInteraction | src/gameplay/cultural_interaction_service.cpp:120-124 | In place: both tables updated; keeps them inverse if the id was handed out and neither id nor flow is taken |
| GameplayService.CulturalInteractionService.CopyForAnswer | src/gameplay/cultural_interaction_service.cpp:153-176 | Lookup by interaction or by flow, with the refusals in order; by flow it finds the interaction of that flow |
| GameplayService.CulturalInteractionService.CompleteInteraction | src/gameplay/cultural_interaction_service.cpp:186-228 | In place: the copy, answered, explained and completed, replaces the entry; keeps the tables inverse if the entry has the flow of the copy |
| SyncReplay.SnapshotPlusUpdates | src/sync/state_sync_service.cpp:31-95 | Within one lifetime of a room: a snapshot at one moment plus updates, from any batches, that carry every version up to that of a later moment give, applied in order, exactly the player table of that moment |
| SyncReplay.ReplayOwn | src/sync/state_sync_service.cpp:207-236 | The same for the updates of one run from a given table |
| SyncReplay.StepVersions | src/sync/state_sync_service.cpp:58-59 | Every change of the table takes one version, and only accepted inputs emit an update, which carries that version |
| SyncReplay.EmittedVersions | src/sync/state_sync_service.cpp:214-223 | The updates of a run carry strictly increasing versions, all after the first and up to the last version of the room |
| SyncReplay.JoinsAreNotReplayed | src/sync/state_sync_service.cpp:31-61 | Gaplessness is needed: a join takes a version and sends no update |
| SyncReplay.UpdatesSufficeIff | src/sync/state_sync_service.cpp:31-95 | The updates sent between two moments carry every version in between, so that they suffice for replay, if and only if no join, leave or offline mark took effect between them |
| SyncReplay.OwnUpdatesReplay | src/sync/state_sync_service.cpp:207-236 | Then they do turn the first table into the last |
| SyncReplay.ListingRoundTrip | src/sync/state_sync_service.cpp:256-271 | The sorted list of a snapshot determines the table |
| SyncReplay.ListingIsUnique | src/sync/state_sync_service.cpp:266-269 | The table determines the list, whatever order it was walked in |
| SyncModel.RoomsAreIndependent | src/sync/state_sync_service.cpp:97-129 | Until it is unregistered a room goes through exactly its own operations, whatever happens to other rooms |
| SyncLog.LogRefinesHistory | src/sync/state_sync_service.cpp:225-231 | The waiting updates are always the newest max_pending accepted since the last drain; all drains and what waits are a subsequence of the accept history, and all of it if and only if the log was never cut; versions strictly increase and stay within the room's |
| SyncLog.InputsIncrease | src/sync/state_sync_service.cpp:116-119 | As long as a player is not removed, the input sequences accepted from it strictly increase |
| SyncMovement.DisplacementBounded | src/sync/state_sync_service.cpp:238-254 | Over every run in which a player stays, with n of its inputs accepted: its distance from the start is at most speed times the time between its updates plus n tolerances, and at most n times (single update + tolerance) |
| SyncMovement.OneMove | src/sync/state_sync_service.cpp:246-253 | One accepted input stays within that reach, with the elapsed time cut to milliseconds and the second clock reading no earlier than the first |
| SyncMovement.Triangle | src/sync/state_sync_service.cpp:273-278 | The triangle inequality for "within distance d", without square roots |
| SyncMovement.CauchySchwarz | src/sync/state_sync_service.cpp:273-278 | The Cauchy-Schwarz inequality in three dimensions, by Lagrange's identity |
| SyncAccepts.AllowedIff | src/sync/state_sync_service.cpp:238-254 | On coordinates: a movement is allowed if and only if the squared distance is within (single update + tolerance) squared and within (speed times whole milliseconds / 1000 + tolerance) squared, or tolerance squared when no whole millisecond has passed |
| SyncAccepts.SubmitIff | src/sync/state_sync_service.cpp:97-129 | An input is taken if and only if its player is there, it is newer, and the movement is within both reaches; the player, version and update that follow, and no change otherwise |
| SyncAccepts.HonestIsNeverRejected | src/sync/state_sync_service.cpp:238-254 | If the tolerance covers one millisecond of speed, every input of a player who keeps to its speed and to single updates is accepted, over every run of them |
| SyncAccepts.WalkIsAccepted | src/sync/state_sync_service.cpp:238-254 | A run of any length in which a player moves straight on at exactly its speed, and all of it is accepted |
| SyncAccepts.AddEffect | src/sync/state_sync_service.cpp:31-61 | The table after a join: a newcomer idle where it says, a player who was there with its last input and action, back online |
| SyncAccepts.RemoveEffect | src/sync/state_sync_service.cpp:63-76 | The table after a leave: exactly that player gone, one version taken if it was there |
| SyncAccepts.OfflineEffect | src/sync/state_sync_service.cpp:78-95 | The table after an offline mark: only that player's flag and time, one version taken if it was there |
| SyncAccepts.ThereIff | src/sync/state_sync_service.cpp:31-76 | Over every run a player is in the table if and only if its last join or leave says so |
| SyncAccepts.RoomsEffect | src/sync/state_sync_service.cpp:16-61 | Registering, unregistering, joining an unknown room and polling for due snapshots, on the table of rooms |
| SyncService.StateSyncService.RegisterRoom | src/sync/state_sync_service.cpp:16-24 | In place: a new empty room unless the id is 0 or taken |
| SyncService.StateSyncService.UnregisterRoom | src/sync/state_sync_service.cpp:26-29 | In place: exactly that room goes |
| SyncService.StateSyncService.AddPlayer | src/sync/state_sync_service.cpp:31-61 | In place: creates the room if need be; a player already there keeps its last input and action; one version taken |
| SyncService.StateSyncService.RemovePlayer | src/sync/state_sync_service.cpp:63-76 | In place: takes a version if and only if the player was there |
| SyncService.StateSyncService.MarkPlayerOffline | src/sync/state_sync_service.cpp:78-95 | In place: offline, time stamped, one version; nothing if absent |
| SyncService.StateSyncService.SubmitState | src/sync/state_sync_service.cpp:97-129 | Accepts if and only if the room and player exist, the input is newer and the movement allowed; a rejection names the first reason in order and changes nothing |
| SyncService.StateSyncService.IsMovementAllowed | src/sync/state_sync_service.cpp:238-254 | The two distance checks, on squared distances |
| SyncService.StateSyncService.AcceptInput | src/sync/state_sync_service.cpp:207-236 | New player state, version, update and the log cut to its newest max_pending |
| SyncService.StateSyncService.BuildSnapshot | src/sync/state_sync_service.cpp:256-271 | A list of exactly the players, strictly ordered by id, from a walk in arbitrary order |
| SyncService.StateSyncService.BuildDueSnapshots | src/sync/state_sync_service.cpp:158-172 | Exactly one snapshot for every room that is due, and exactly those rooms stamped |
| SyncService.StateSyncService.DrainDeltas | src/sync/state_sync_service.cpp:174-185 | Hands out and clears the waiting updates |
| TtsCache.EveryRun | src/voice_tts/voice_tts_service.cpp:215-247 | In every reachable state each cached entry's id leads back to its own key, each indexed id was built from the key it leads to, the cache is within max_cache_items, and each entry was returned by a provider for a request with that key |
| TtsCache.HitIsSound | src/voice_tts/voice_tts_service.cpp:56-73 | A request answered from the cache gets unexpired, nonempty audio that a provider returned for a request with the same key |
| TtsKeys.HitIsForSameSpeech | src/voice_tts/voice_tts_service.cpp:56-73 | A hit is audio that a provider returned for the same text, voice id, language, numbers as printed and format, if no answered request collides in the hash and the request has no separator in text, voice id and language (or voice ids and languages all have equally many) |
| TtsKeys.KeyIff | src/voice_tts/voice_tts_service.cpp:201-213 | Two cache keys are equal if and only if the hashes of the joined requests are |
| TtsKeys.SpelledAlikeIff | src/voice_tts/voice_tts_service.cpp:201-210 | Over the seven joined fields: two requests are spelled alike if and only if format and numbers as printed are the same and either text, voice id and language are, or the separator after the voice id is shifted into one of its neighbours, or the one after the text is, with the one after the voice id anywhere |
| TtsKeys.NumbersReadBack | src/voice_tts/voice_tts_service.cpp:201-210 | Format and numbers can be read back from the end: spelled alike means the same format and numbers as printed, and the same join of text, voice id and language |
| TtsKeys.TwinIff | src/voice_tts/voice_tts_service.cpp:201-210 | Whatever the hash, there is another acceptable request with the same key if and only if text, voice id and language of a request contain a separator, or two when the text starts with one |
| TtsKeys.TwinIsServed | src/voice_tts/voice_tts_service.cpp:56-73 | Wherever caching is possible: if two requests have one key, there is a run after which the second is served audio made for the first |
| TtsKeys.SpellingIsFaithful | src/voice_tts/voice_tts_service.cpp:201-210 | If voice ids and languages have equally many separators, requests spelled alike have the same text, voice id, language, numbers as printed and format |
| TtsKeys.SeparatorsCollide | src/voice_tts/voice_tts_service.cpp:201-213 | Whatever the hash: requests with different texts that have the same key |
| TtsKeys.VoicesCollide | src/voice_tts/voice_tts_service.cpp:201-213 | Whatever the hash: requests with the same text and different voice ids and languages that have the same key |
| TtsCache.FindAudioStaysInKey | src/voice_tts/voice_tts_service.cpp:149-158 | Looking up an audio id never yields audio of another key; what it yields is unexpired and was made for that key |
| TtsCache.OverwritingLeavesOldId | src/voice_tts/voice_tts_service.cpp:229-233 | Overwriting an entry leaves its old id in the index, leading to the new audio, so the index is no bijection |
| TtsCache.BijectionIff | src/voice_tts/voice_tts_service.cpp:229-247 | Storing breaks the one-to-one correspondence of ids and entries if and only if it overwrites an entry under another id; evicting never does |
| TtsIndex.IndexIsBijectionIff | src/voice_tts/voice_tts_service.cpp:229-247 | From the start, over every run: ids and entries are in one-to-one correspondence at the end if and only if no finished attempt of the run overwrote an entry that was still cached under another id |
| TtsIndex.BijectionKeptIff | src/voice_tts/voice_tts_service.cpp:229-247 | The same from any reachable state in one-to-one correspondence |
| TtsIndex.StaleForEver | src/voice_tts/voice_tts_service.cpp:229-247 | An id left over in the index is never removed again: no later eviction, sweep or overwriting reaches it |
| TtsIndex.IndexCanBreak | src/voice_tts/voice_tts_service.cpp:229-233 | A concrete run from the start, for any hash, after which they are not: two requests with one text and voice, queued together, both spoken |
| TtsCache.FindAudioFindsEntries | src/voice_tts/voice_tts_service.cpp:149-158 | The id of a cached entry finds exactly that entry until it expires |
| TtsCache.AudioIdInjective | src/voice_tts/voice_tts_service.cpp:215-217 | An audio id determines the key and the task it was built from |
| TtsCache.EvictionRemovesOldest | src/voice_tts/voice_tts_service.cpp:235-247 | Eviction only removes entries, and none that is newer than any it keeps, whichever of equally old ones goes first |
| TtsCache.EvictionSize | src/voice_tts/voice_tts_service.cpp:235-247 | Eviction stops exactly at the limit |
| TtsCache.PutEvictsOne | src/voice_tts/voice_tts_service.cpp:229-233 | Storing in a cache within its limit evicts one entry if the key is new and the cache full, and otherwise none |
| TtsClearing.ClearingIsInvisible | src/voice_tts/voice_tts_service.cpp:183-195 | For every run from the start there is one without its clearing, differing otherwise only in which of equally old entries are evicted, that ends with the same tasks, provider calls and unexpired audio, and in which every later request gets the same result |
| TtsClearing.EvictAlike | src/voice_tts/voice_tts_service.cpp:235-247 | Two caches with the same unexpired entries, one with more expired ones: whatever one evicts on storing, the other can evict so that the unexpired entries stay the same |
| TtsClearing.LookupsByIdAgree | src/voice_tts/voice_tts_service.cpp:149-158 | If no attempt of the two runs overwrites a cached entry, lookups by audio id agree as well |
| TtsClearing.ClearingForgetsOldIds | src/voice_tts/voice_tts_service.cpp:183-195 | Otherwise they may not: an expired entry that is stored again keeps its old id alive, unless it was cleared first |
| TtsPromises.SubmitIff | src/voice_tts/voice_tts_service.cpp:39-85 | A request is taken if and only if its text is neither empty nor too long and the queue has room, and answered at once if and only if it allows the cache and unexpired audio for its key is there; the task it becomes |
| TtsPromises.FinishOutcome | src/voice_tts/voice_tts_service.cpp:279-329 | Status, due time, error text and audio of a task after an attempt, in terms of what the provider answered and how long it took |
| TtsPromises.SpokenIsServed | src/voice_tts/voice_tts_service.cpp:219-233 | Speech that was brought and not evicted at once answers every later request with its key, with exactly its bytes, if and only if that comes before its time is over |
| TtsPromises.NotEvicted | src/voice_tts/voice_tts_service.cpp:235-247 | Nothing is evicted while the cache is not full or has the key already |
| TtsPromises.CacheIsBrought | src/voice_tts/voice_tts_service.cpp:293-315 | Over every run every cached audio was brought by an attempt of the run that was answered in time with exactly these bytes, has the id of that attempt's task, and expires exactly cache_ttl after it |
| TtsPromises.ClearedIff | src/voice_tts/voice_tts_service.cpp:183-195 | Clearing takes exactly the expired entries and exactly their ids |
| TtsPromises.CancelIff | src/voice_tts/voice_tts_service.cpp:87-98 | Cancelling succeeds if and only if the task is queued or running; the status and time that change |
| TtsModel.RunIsQueueRun | src/voice_tts/voice_tts_service.cpp:39-137 | Every run of the speech service is a run of the task queue |
| TtsModel.SpeechBounds | src/voice_tts/voice_tts_service.cpp:249-329 | Load, provider calls and attempts of the speech service over every interleaving |
| TtsModel.UndisturbedSpeech | src/voice_tts/voice_tts_service.cpp:47-54 | If no cancelTask call of the run hits a task with an attempt in flight, queued plus running tasks stay within max_queued_tasks |
| TtsModel.CancelLastsIff | src/voice_tts/voice_tts_service.cpp:87-98 | A cancelled speech task stays cancelled, whatever the service does next, if and only if no attempt of it is in flight |
| TtsModel.CapacityKeptIff | src/voice_tts/voice_tts_service.cpp:47-54 | Along a run of the speech service the capacity is kept if and only if no attempt that ends requeues a cancelled task while the queue is full |
| TtsModel.SpeechRetryTimes | src/voice_tts/voice_tts_service.cpp:315-329 | The retry times of the queue, for speech tasks |
| TtsService.VoiceTtsService.Submit | src/voice_tts/voice_tts_service.cpp:39-85 | In place: refusals in order (a full queue refuses even what the cache could answer), a finished task for a hit, else a queued one |
| TtsService.VoiceTtsService.FindCachedAudio | src/voice_tts/voice_tts_service.cpp:219-227 | An entry that has not expired, or nothing |
| TtsService.VoiceTtsService.FindAudio | src/voice_tts/voice_tts_service.cpp:149-158 | Through the index into the cache |
| TtsService.VoiceTtsService.CancelTask | src/voice_tts/voice_tts_service.cpp:87-98 | In place: only queued and running tasks |
| TtsService.VoiceTtsService.TakeNextTask | src/voice_tts/voice_tts_service.cpp:249-277 | The scan in arbitrary order starts a due task of which none was created earlier, or finds that none is due |
| TtsService.VoiceTtsService.FinishTask | src/voice_tts/voice_tts_service.cpp:279-329 | In place: audio kept and stored, or retry, or final failure; an answer without bytes is a failure |
| TtsService.VoiceTtsService.StoreCache | src/voice_tts/voice_tts_service.cpp:229-233 | In place: entry and index entry written, then the limit enforced |
| TtsService.VoiceTtsService.EnforceCacheLimit | src/voice_tts/voice_tts_service.cpp:235-247 | The loop ends, and its course is one of the specification: oldest first until within the limit |
| TtsService.VoiceTtsService.FindOldest | src/voice_tts/voice_tts_service.cpp:237-242 | The scan in arbitrary order finds an entry none is older than |
| TtsService.VoiceTtsService.ClearExpiredCache | src/voice_tts/voice_tts_service.cpp:183-195 | The erase-while-iterating sweep removes exactly the expired entries and their ids |
| FrameCodec.StreamRoundTrip | src/net/message.cpp:40-76 | For messages within the limits and any cutting of their concatenated frames into chunks, repeated decoding yields exactly those messages in order and leaves nothing over |
| FrameCodec.CutsDoNotMatter | src/net/message.cpp:58-76 | For any bytes and any cutting, messages and rejection are those of the whole stream |
| FrameCodec.OversizedIsRejected | src/net/message.cpp:78-83 | The header of a frame over the limit is enough for rejection, whatever follows and however the stream is cut, after exactly the messages before it |
| FrameCodec.DecodeInvertsFrame | src/net/message.cpp:58-76 | Decoding yields a message and a rest if and only if the buffer is that message's frame, within the limit, followed by the rest |
| FrameCodec.HeaderRoundTrip | src/net/message.cpp:78-97 | Header bytes and headers correspond one to one |
| FrameCodec.U32RoundTrip | src/net/message.cpp:16-36 | Reading back four big-endian bytes gives the number |
| FrameCodec.U32Canonical | src/net/message.cpp:16-36 | Every four bytes are the big-endian bytes of the number they read as |
| FrameCodec.DecodeExtends | src/net/message.cpp:58-76 | More bytes do not change what has been decoded or rejected |
| FrameCodec.WireLayout | src/net/message.cpp:40-97 | Byte by byte: four bytes of size, two of type, two of flags, all most significant byte first, then the payload; encoded if and only if it is within one mebibyte |
| FrameCodec.RejectedIff | src/net/message.cpp:58-83 | A buffer is rejected if and only if its first four bytes announce more than the limit; what a completed one decodes to, byte by byte |
| FrameCodec.WriteU16Be | src/net/message.cpp:24-28 | In place: two bytes of the buffer, the rest as it was |
| FrameCodec.WriteU32Be | src/net/message.cpp:30-36 | In place: four bytes of the buffer, the rest as it was |
| FrameCodec.EncodeHeader | src/net/message.cpp:92-97 | In place: the eight bytes that HeaderRoundTrip reads back |
| FrameCodec.Encode | src/net/message.cpp:40-56 | The frame that DecodeInvertsFrame is about, or a refusal above the built-in limit |
| FrameCodec.FrameBuffer.TryDecode | src/net/message.cpp:58-76 | Takes the first frame out of the buffer; an incomplete or oversized one leaves the buffer untouched |
| FrameCodec.FrameBuffer.Receive | src/net/message.cpp:58-76 | Repeated decoding after a chunk arrives |
| TcpReader.LoopIsDecoder | src/net/tcp_connection.cpp:77-132 | The header-then-body read loop delivers, rejects and holds back exactly what repeated decoding of the same stream does |
| TcpReader.MessagesArrive | src/net/tcp_connection.cpp:77-132 | Messages within the limits arrive through the read loop as they were framed |
| TcpReader.OnByteDecodes | src/net/tcp_connection.cpp:89-126 | One byte further the loop has completed a message, rejected or gone on waiting exactly as the decoder would |
| TcpWriter.EveryRun | src/net/tcp_connection.cpp:56-75 | Over every interleaving of sends, completions, errors and closes: at most one write outstanding, of the queue front; completed frames are a prefix of those posted; the writes started are a prefix of the frames posted and, while open, exactly those completed and outstanding; an open connection with something to send is writing; the close callback has run once if closed, else not |
| TcpWriter.StepKeepsInv | src/net/tcp_connection.cpp:134-170 | Each step on the strand keeps that |
| TcpWriter.NothingStartsAfterClose | src/net/tcp_connection.cpp:134-138 | After closing no write starts, whatever completes, fails or is posted: the history of started writes stays as it was, and at most what was outstanding can still complete |
| TcpWriter.EverythingIsWritten | src/net/tcp_connection.cpp:134-154 | While the connection is open and its writes succeed, everything posted is written: as many completions as frames are waiting empty the queue |
| TcpWriter.ClosedIff | src/net/tcp_connection.cpp:145-178 | Over every run the connection is closed if and only if a close, a read error, a bad frame or a failed write occurred; the close callback has then run once, the error callback once for every bad frame |
| TcpWriter.PeerReadsPrefix | src/net/tcp_connection.cpp:56-67 | End to end: a peer decoding the bytes written so far gets exactly the messages whose frames are complete, in send order |
| TcpService.TcpConnection.Send | src/net/tcp_connection.cpp:56-67 | An oversized message is refused before posting; otherwise its frame is queued and a write started if none is under way |
| TcpService.TcpConnection.WriteNext | src/net/tcp_connection.cpp:134-154 | Starts a write of the queue front unless empty or closed |
| TcpService.TcpConnection.OnWritten | src/net/tcp_connection.cpp:145-153 | A completion pops the front and goes on, an error closes |
| TcpService.TcpConnection.CloseNow | src/net/tcp_connection.cpp:156-170 | Closes and calls back at most once |
| TcpService.TcpConnection.Fail | src/net/tcp_connection.cpp:172-178 | Reports the error, then closes |
| TcpService.TcpConnection.OnData | src/net/tcp_connection.cpp:77-132 | Bytes in any portions deliver what the read loop specification says, and an oversized frame fails the connection |
| RateLimiter.LongRunBound | src/net/rate_limiter.cpp:12-32 | From construction at t0 to t at most m (floor((t - t0) / W) + 1) calls are allowed |
| RateLimiter.AnyWindowBound | src/net/rate_limiter.cpp:12-32 | Any half-open interval of length W contains at most 2 m allowed calls, wherever it lies and whatever came before |
| RateLimiter.TwiceIsReached | src/net/rate_limiter.cpp:20-31 | For every m > 0 and W > 1 there are calls for which such an interval contains exactly 2 m |
| RateLimiter.RefusedOnlyWhenFull | src/net/rate_limiter.cpp:12-32 | A call is refused only if m calls have been allowed within the window's length up to it |
| RateLimiter.LimitHoldsIff | src/net/rate_limiter.cpp:12-32 | For m > 0 and W > 0: at most m calls are allowed in every interval of length W, for all calls, if and only if W is a single clock unit |
| RateLimiter.ZeroIsUnlimited | src/net/rate_limiter.cpp:14-17 | With m = 0 every call is allowed |
| RateLimiter.ConnectionLimiter.Allow | src/net/rate_limiter.cpp:12-32 | In place: the verdict and the new counters that these bounds are about |
| RateLimiter.ConnectionLimiter.Reset | src/net/rate_limiter.cpp:34-38 | In place: as if constructed now |
| Sessions.EveryRun | src/auth/session_auth_service.cpp:107-202 | Over every run of logins, touches, closes and sweeps the two tables are inverse to each other, ids are fresh, and an id belongs to one player for ever |
| Sessions.LoginsAreSafe | src/auth/session_auth_service.cpp:176-202 | In every reachable state the lookup at line 182 does not throw; the player has exactly one session afterwards, under its old id or a new one, and no other session changes |
| Sessions.SweepIsExact | src/auth/session_auth_service.cpp:147-160 | A sweep removes from both tables exactly the sessions that are expired, each by its own reading of the wall clock |
| Sessions.FindIff | src/auth/session_auth_service.cpp:107-120 | A player is found if and only if some session is the player's, and then that session |
| Sessions.LoginEffect | src/auth/session_auth_service.cpp:176-202 | What a login makes of the tables: one session with what token and connection say now, under the old id and age or a new one |
| Sessions.TouchEffect | src/auth/session_auth_service.cpp:122-132 | Only the last seen time of that session changes, to the time of the call |
| Sessions.CloseEffect | src/auth/session_auth_service.cpp:134-145 | Exactly that session and its player's entry go |
| Sessions.SurvivesIff | src/auth/session_auth_service.cpp:147-160 | A session survives a sweep, unchanged, if and only if it was seen within the timeout and its token has not run out |
| Sessions.SessionsWereSeen | src/auth/session_auth_service.cpp:107-202 | Over every run last seen time, connection, account and token end of a session are those of a login or touch of the run |
| Sessions.SessionAuthService.UpsertSession | src/auth/session_auth_service.cpp:176-202 | In place: refreshes or adds, keeping the invariant |
| Sessions.SessionAuthService.TouchSession | src/auth/session_auth_service.cpp:122-132 | In place: only the time last seen |
| Sessions.SessionAuthService.CloseSession | src/auth/session_auth_service.cpp:134-145 | In place: the session and its player's entry |
| Sessions.SessionAuthService.SweepExpiredSessions | src/auth/session_auth_service.cpp:147-160 | The erase-while-iterating sweep in arbitrary order is the specification's sweep |
| Sessions.SessionAuthService.FindSessionByPlayer | src/auth/session_auth_service.cpp:107-120 | Through both tables |
| Bcrypt.EncodingRoundTrip | src/auth/password_hasher.cpp:19-56 | The cut to 22 characters takes effect if and only if the input has more than 16 bytes; up to there the text has ceil(4n/3) characters and decoding recovers the bytes |
| Bcrypt.SaltsStayDistinct | src/auth/password_hasher.cpp:64-70 | Different 16-byte salts have different encodings of 22 characters |
| Bcrypt.LongInputsKeepBits | src/auth/password_hasher.cpp:51-54 | Longer inputs have the same encoding if and only if their first 132 bits agree |
| Bcrypt.SextetBits | src/auth/password_hasher.cpp:25-49 | Bit k of group j is bit 6j + k of the input, with zeros after its end (section 4 of RFC 4648) |
| Bcrypt.OctetsInvertSextets | src/auth/password_hasher.cpp:25-49 | Regrouping by six bits loses nothing |
| Bcrypt.AlphabetPlaces | src/auth/password_hasher.cpp:16-17 | The 64 characters are distinct: each is found at its place |
| Bcrypt.BcryptBase64Encode | src/auth/password_hasher.cpp:19-56 | The three-way unrolled loop computes that encoding |
| Bcrypt.ConstantTimeEquals | src/auth/password_hasher.cpp:75-86 | The accumulating comparison is equality |

## Left out

- Wrap-around of 64-bit ids, versions and sequence numbers, and overflow of clock arithmetic: all are unbounded integers here. The 32-bit attempt counter and limit are modelled with their wrap-around.
- Floating-point rounding in the movement check: coordinates, speed and tolerance are reals, and distances are compared as squares.
- Time stamps that nothing reads: of rooms and members, of flows, and the creation time of snapshots.
- Trigger rules and their cooldowns: a trigger event is a sequence of plain task additions.
- AI and speech providers: they return an arbitrary answer after an arbitrary time. An exception thrown by a provider, which would leave its task running, is not modelled.
- The batch loop of a tick: a tick is its takes and finishes, one after the other, interleaved with everything else.
- The room membership and argument checks, storage calls, speech request and score of an interaction: they do not touch the two interaction tables.
- Format, MIME type, duration and metadata of audio, and the player, purpose and metadata of a speech request. The string hash of the cache key is an arbitrary function.
- The numbers of a voice are kept as they are printed into the cache key, which may round them: two speeds that print alike are one speed here.
- The rate limit inside the read loop, and a read that completed just before the connection closed and is delivered after it.
- The sort of a snapshot's players is an insertion sort in place of the standard library's.
- JWT, crypt, the random salt source and the parsing of stored hashes: a login starts from the claims of a valid token.
- Sockets, the gateway's accept loop, HTTP routes, configuration, logging, telemetry and PostgreSQL storage.
- Queries that only copy or count (finding tasks, flows and rooms, lists, sizes).
