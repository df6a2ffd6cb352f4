# Verified models of the contract assistant's core

A Dafny project that models the parts of the repository whose correctness depends on state carried
across many steps, and proves what they keep. Each module follows one component; where the source
updates something in place (a scanner's arrays, a database row, a counter, a growing list), a class
or a method with loops does the same and is proved equal to a function, and the properties are
lemmas about that function.

| module | models |
|---|---|
| `Lexer`, `Brackets`, `TokenTrees` | the depth-aware TypeScript scanner, the closing-brace search, and printing of nested token trees |
| `Stages`, `StageOrder`, `StageLimits`, `StageReorder` | lifecycle stages of workflow steps: inference, its exact order condition without and with saved stages, the reordering and the upgrade |
| `Confirmations`, `Interleavings`, `Coupling`, `Schedules` | confirmations, tool calls and runs as coupled state machines, under any interleaving of the reads and writes of requests, workers and sweeps |
| `ConfirmationDesk` | requests with commit and rollback, the sweep, and the restored card |
| `History`, `Transcript` | the replayed history window and the messages of a turn across tool rounds, pauses and resumptions |
| `Handles`, `Masking` | stable contract handles and the masking of tool results |
| `ClauseSegments`, `ClauseIndex` | clause segments over the reader's elements, the stored rows, and the guarded swap of the index |
| `TokenCap` | the daily token cap: atomic reserve, later settle, any interleaving, lost replies and failed commands |
| `SseFramer`, `SseRoundTrip` | the Word add-in's incremental reader of a server-sent event stream (a subset of sections 9.2.5 and 9.2.6 of the WHATWG HTML Living Standard) |
| `Base64`, `Preflight` | base64 (section 4 of RFC 4648) and the attachment pre-flight |
| `Chunks` | overlapping chunks of a text |
| `AuditChain` | the audit log's hash chain: backfill, append, check |
| `Options`, `Positions`, `Text` | optional values; elements picked out of a sequence in order; white space, joining, decimal numerals |

`dafny verify dfyconfig.toml` checks the whole project. Lemmas are marked `{:induction false}`: every
induction is written out as a recursive call.

A row lock (`with_for_update`, an advisory lock, a store script) and an update that tests the row it
changes are atomic steps. A confirmation's other transactions are taken apart: what they read without a
lock may have changed when they write, and a worker writes its run's status without looking at it again.
Clocks, identifiers, the model's answers, the outcome of a tool and the fate of a network command are
parameters. Strings are sequences of characters.

## Where the code does not do what it is meant to

Each of these is a lemma with the exact condition, or with a concrete case and the condition under
which the property holds.

- A block comment whose text starts with a slash is closed by the scanner at its third character
  (`BlockStaysOpenIff`, `SlashStarSlash`).
- Inferred stages follow the lifecycle order exactly when no step takes the workflow further than a later
  one allows (`MonotoneIffWithinLimits`, `KeptStageFalls`), that is, without kept stages, for
  lifecycle-shaped steps (`MonotoneIffShaped`, `TwoSignaturesFall`); a counterparty step can end in a stage
  its type does not allow (`StageNotAllowedIff`, `CounterpartyOutside`); and the reordering loses a step
  exactly when a step ahead of the first approval equals, as a value, a counterparty step behind it
  (`NothingLostIff`, `EqualStepsMerge`).
- The sweep takes no lock: it can expire a confirmation that a request has confirmed since its query, and
  send a second closing message (`StepIsSoundIff`, `SweepTakesBack`, `TwoMessages`, `TwoMessagesByVisit`).
- A worker commits a confirmation and lets its run wait in two transactions. When it is lost, or the
  confirmation is rejected, between them, the two stay apart (`RunStepKeepsIff`, `RejectKeepsIff`,
  `LostWhileAsking`, `RejectedWhileAsking`).
- The same action asked for again while its card is open gives the second run the first run's pending
  confirmation. Confirmation and run are then no longer coupled (`AskKeepsIff`); no decision, expiry
  or sweep ever ends the second run (`StrandedForGood`, `SecondRunStuck`); and the session's card is
  hidden although the decision would be accepted (`ReuseHidesCard`).
- A resumption requested for a confirmation that is not the run's own, or not confirmed, leaves an open
  confirmation behind a run that no longer waits (`RunStepKeepsIff`, `EarlyClaimUncouples`).
- A failed call is marked as failed and then rolled back, so a confirmed action that fails leaves its call
  confirmed behind a failed run; a Stop or a lost worker between the claim and the work does the same
  (`LeftBehindIff`, `FailedActionLeavesCall`).
- A full second query of the sweep can starve runs that it should close (`StarvedIff`, `HealthyStarvesStuck`).
- The comment above the audit log's append says that its lock keeps the chain intact. It does so only
  while each new row is listed last by (`created_at`, `id`): two rows with the same clock reading and
  descending identifiers, or a clock that is set back, break the chain for good (`AppendKeepsIff`,
  `RunValidIff`, `ClockTieBreaksChain`).
- The base64 pattern's `$` lets a final line feed through, which the decoder then refuses
  (`DecodeFailsOnlyOnLineFeed`); values reach it without white space, so it cannot happen there.
- Chunking with an overlap of at least the chunk size never ends on a longer text (`NoProgress`).
- Minted handles are numbered without gaps as long as no user asks for a handle by name. Otherwise one of
  the next numbers can be taken, and a result that shows as many new contracts is refused at every try
  (`MaskRefusedIff`, `TwoNewRefused`). When it is the next number, minting stays refused in that chat until
  another handle is asked for by name (`MintRefusedIff`, `RefusedUntilAsked`, `RequestedHandleBlocks`).
- A result with a known handle of its own, as the search tools return it, comes back with the contract id
  when it is looked up (`LoneHandlePasses`); a dict with both a handle key and a contract id would lose one
  (`MaskIsFaithfulIff`, `BothKeysLoseOne`).
- A segment opened by an element without an end offset can be an empty stretch behind the segment it
  belongs to (`SegmentsAreLaminar`, `EmptyStretch`); and an element without one can lie outside its
  section (`ElementInOneSection`, `EndlessOutside`).

## Model

| member | source | states |
|---|---|---|
| Lexer.ComputeDepthAndCodeMask | scripts/build_repo_graph.py:435-549 | the scanner's loop over three arrays gives every character exactly the mark of the recursive scan |
| Lexer.ReadTurn | scripts/build_repo_graph.py:457-548 | one turn, branch by branch: the next state, the mark and how many characters it covers |
| Lexer.LexKeepsNesting | scripts/build_repo_graph.py:478-539 | on any text the stack of open template holes is strictly increasing and its top is below the current depth |
| Brackets.DepthIsBalance | scripts/build_repo_graph.py:476-548 | on any text a character's depth is the number of code `{` minus code `}` up to it, plus one on the `$` that opens a hole |
| Brackets.LexIsWellMarked | scripts/build_repo_graph.py:457-549 | the scan of any text has the marks that the two depth lemmas are about |
| Brackets.NeighbouringDepths | scripts/build_repo_graph.py:476-494 | neighbouring depths differ by at most one, and only a code `}` lowers the depth |
| Brackets.FindMatchingClose | scripts/build_repo_graph.py:552-557 | the search returns the first code `}` one level below the opening brace, or the length when there is none |
| Brackets.MatchingCloseIsPartner | scripts/build_repo_graph.py:552-557 | from a code `{` in any text that result is the partner by counting: the balance in between never falls below the opening one, and drops by one there or never |
| Brackets.MatchingBrace | scripts/build_repo_graph.py:435-557 | both passes together return the one partner that the brace has |
| TokenTrees.LexUndoesPrint | scripts/build_repo_graph.py:435-549 | scanning a printed token tree with nested holes gives exactly the tree's depths and code flags and ends in code, at depth zero, with no open hole |
| TokenTrees.TokensRun | scripts/build_repo_graph.py:457-549 | the same for a tree in any context: any state in code mode, any text behind it that cannot turn a last slash into a comment |
| TokenTrees.PartsRun | scripts/build_repo_graph.py:525-547 | a template literal, holes included, is scanned back into code at the depth it started from |
| TokenTrees.UnclosedIsSilent | scripts/build_repo_graph.py:463-524 | from any place in code, a comment, string or template that is opened and never closed is no code up to the text's last character, and the scan ends inside it |
| TokenTrees.BlockStaysOpenIff | scripts/build_repo_graph.py:501-511 | a comment stays open over its whole text exactly when the text does not start with a slash |
| TokenTrees.SlashStarSlash | scripts/build_repo_graph.py:463-511 | the three characters slash, star, slash open and close a comment |
| Stages.Infer | backend/alembic/versions/0057_workflow_step_stages.py:40-66 | the in-place backward and forward passes write exactly the inferred stages and change nothing else |
| Stages.InfersIffInferred | backend/alembic/versions/0057_workflow_step_stages.py:46-66 | the rules, stated step by step, have exactly one solution: the inferred stages |
| Stages.StageMeans | backend/alembic/versions/0057_workflow_step_stages.py:40-66 | the stage of every step written out: a saved one exactly when the type allows it (Drafting or Review for a counterparty), the own one of a draft, approval or signature, Intake by name at floor zero, the previous one when parallel, else by floor and the fixed step to come; the floor is the highest rank before, a signature counting as Active; nothing else of the step changes |
| Stages.FindFixedAfter | backend/alembic/versions/0057_workflow_step_stages.py:41-45 | the backward pass finds, for every step, the stage of the next draft, approval or signature |
| Stages.InferIsIdempotent | backend/alembic/versions/0057_workflow_step_stages.py:40-66 | inferring twice is inferring once, for any saved or disallowed stages |
| Stages.StageNotAllowedIff | backend/alembic/versions/0057_workflow_step_stages.py:47-62 | a step ends in a stage its type does not allow exactly if it is a counterparty step without a usable saved stage that takes Intake from its built-in name, or runs in parallel and the nearest earlier step that does not copy is outside Drafting and Review; all said of the given steps |
| Stages.FloorIsZeroIff | backend/alembic/versions/0057_workflow_step_stages.py:46-65 | the running floor is still zero exactly when every earlier step is kept at Intake or put there by its name, its parallel flag or a draft to come |
| Stages.FloorIsLowIff | backend/alembic/versions/0057_workflow_step_stages.py:46-65 | the floor is at most Review exactly when no earlier step is kept past Review, an approval or a signature |
| Stages.SameStageAsSource | backend/alembic/versions/0057_workflow_step_stages.py:54-55 | a step that copies has the stage of the nearest earlier step that does not |
| Stages.CounterpartyOutside | backend/alembic/versions/0057_workflow_step_stages.py:47-62 | two such step lists: Intake by name, and Approval by running in parallel with an approval |
| StageOrder.MonotoneIffShaped | backend/alembic/versions/0057_workflow_step_stages.py:40-66 | when no step keeps a saved stage, ranks never fall along the steps if and only if four order conditions on types, parallel flags and built-in names hold |
| StageOrder.TwoSignaturesFall | backend/alembic/versions/0057_workflow_step_stages.py:63-65 | a step list on which they do fall: a sequential step between two signatures |
| StageLimits.MonotoneIffWithinLimits | backend/alembic/versions/0057_workflow_step_stages.py:40-66 | for every list of steps, whatever stages are saved: ranks never fall if and only if no step takes the workflow further than a later one allows, each said of the given steps |
| StageLimits.ShapedIffWithinLimits | backend/alembic/versions/0057_workflow_step_stages.py:40-66 | without kept stages these limits come to the four order conditions |
| StageLimits.KeptStageFalls | backend/alembic/versions/0057_workflow_step_stages.py:47-49 | a list on which a kept stage falls |
| StageOrder.FloorReached | backend/alembic/versions/0057_workflow_step_stages.py:46-65 | for such steps, what the running floor is behind every prefix |
| StageReorder.NegotiationBeforeApproval | backend/alembic/versions/0057_workflow_step_stages.py:69-80 | the reordering's loops compute the reordered list |
| StageReorder.ReorderedParts | backend/alembic/versions/0057_workflow_step_stages.py:69-80 | where every step ends up: kept front, moved negotiations without their parallel flags, the approval, the other steps |
| StageReorder.ReorderedInOrder | backend/alembic/versions/0057_workflow_step_stages.py:69-80 | the result position by position: there are three rising sequences of positions, of the steps ahead of the first approval that stay, of all counterparty steps behind it, and of the other steps from the approval on, and the result has these steps in this order, the moved ones without their parallel flags |
| StageReorder.NoCounterpartyBehindApproval | backend/alembic/versions/0057_workflow_step_stages.py:10-12 | after reordering no counterparty step is behind the first approval |
| StageReorder.ReorderIsIdempotent | backend/alembic/versions/0057_workflow_step_stages.py:69-80 | reordering twice is reordering once |
| StageReorder.NothingLostIff | backend/alembic/versions/0057_workflow_step_stages.py:73-76 | no step is lost if and only if no step ahead of the approval equals a moved one as a whole dict, absent and false flags being different |
| StageReorder.EqualStepsMerge | backend/alembic/versions/0057_workflow_step_stages.py:73-80 | two equal negotiations around an approval come out as one |
| StageReorder.ReorderIsPermutation | backend/alembic/versions/0057_workflow_step_stages.py:69-80 | then the result is a permutation apart from dropped parallel flags |
| StageReorder.UpgradeFollowsLifecycle | backend/alembic/versions/0057_workflow_step_stages.py:83-95 | reordering then inferring gives nondecreasing ranks for every such workflow, whatever its flags and names |
| StageReorder.Upgrade | backend/alembic/versions/0057_workflow_step_stages.py:83-95 | one row: a workflow is reordered and labelled, a run is only labelled |
| Confirmations.InvariantMeans | backend/app/ai/confirmations.py:19-54 | the coupling in plain terms: which call, run and worker state goes with each decision, and at most one pending confirmation per run |
| Confirmations.NothingStuck | backend/app/ai/confirmations.py:236-243 | in a coupled state no decision against a confirmation leaves its run waiting, so the sweep's second loop, if it reads both at once, has none to close |
| Interleavings.StepIsBasic | backend/app/ai/confirmations.py:57-244 | under any order of reads and writes, two sweeps at once included: records stay linked, a pending confirmation keeps its call, no confirmed call is carried out twice, and a decision changes at most into an expiry |
| Interleavings.AlwaysBasic | backend/app/ai/confirmations.py:57-244 | so over any steps from there, without any condition on them |
| Interleavings.StepIsSoundIff | backend/app/ai/confirmations.py:206-244 | of all steps, exactly these keep every decision, every call matched to it and one closing message per run: a write that finds its confirmation still pending or already expired and the turn it closes not closed, and a worker's last write that leaves a closed run cancelled |
| Interleavings.AlwaysSoundIff | backend/app/ai/confirmations.py:206-244 | over any steps, every state on the way is sound and no decision is taken back if and only if all of them were such |
| Coupling.StartIsCoupled | backend/app/ai/confirmations.py:19-54 | the empty state is coupled, so the theorems about coupled states cover every run from the start |
| Coupling.AskKeepsIff | backend/app/ai/controller.py:467-496 | a worker that asks for a confirmation keeps confirmation, call and run coupled if and only if it does not get an earlier pending one back, which is always another run's |
| Coupling.RunStepKeepsIff | backend/app/assistant/routes.py:321-339 | a claim keeps them coupled if and only if the confirmation named, or waited for, is the run's own and confirmed; a worker that ends or is lost, unless it had committed a confirmation still pending; all other changes of a run's record do |
| Coupling.ConfirmKeeps | backend/app/ai/confirmations.py:57-87 | confirming a pending confirmation keeps them coupled |
| Coupling.RejectKeepsIff | backend/app/ai/confirmations.py:90-123 | rejecting does if and only if the run already waits, and then cancels it with exactly one closing message |
| Coupling.ExpireKeepsIff | backend/app/ai/confirmations.py:206-218 | and so does expiring a pending confirmation |
| Coupling.CarryOutKeeps | backend/app/ai/tool_runtime.py:303-365 | carrying out keeps them coupled whether the action works, fails and is rolled back, or fails after committing a part |
| Coupling.WriteKeepsIff | backend/app/ai/confirmations.py:206-244 | what a request or a sweep writes after its reads keeps them coupled, and every decision, if and only if the confirmation is pending then and was read with a waiting run (or is confirmed), or has expired and the run was not read as waiting; the second loop's write never does |
| Coupling.StepKeepsIff | backend/app/ai/confirmations.py:19-244 | of all steps from a coupled state, exactly the orderly ones keep it coupled and take back no decision |
| Coupling.AlwaysCoupledIff | backend/app/ai/confirmations.py:19-244 | over any steps from a coupled state, every state on the way is coupled and no decision is taken back if and only if all steps were orderly |
| Coupling.LeftBehindIff | backend/app/assistant/runner.py:407-461 | of all steps, exactly these leave a confirmed call behind a run that no longer waits for it: the run is ended, claimed for another confirmation, or its worker ends or is lost; its action fails outright; or a late write about an earlier confirmation of the run cancels it |
| Coupling.ConfirmedIsHeld | backend/app/ai/confirmations.py:57-87 | no other way in: a call that a step makes confirmed is at first held by its run |
| Coupling.ReuseStrands | backend/app/ai/tool_runtime.py:288-300 | a second run that gets the first one's pending confirmation back waits with none of its own pending or decided against |
| Coupling.StrandedUntilRoused | backend/app/ai/confirmations.py:57-244 | under any interleaving, of all steps exactly a claim of that run, or a late write of a sweep over a confirmation of its own, gets it going |
| Coupling.StrandedForGood | backend/app/ai/confirmations.py:57-244 | so without these it waits for ever, unchanged, over any steps |
| Coupling.StrandedUnlessClaimed | backend/app/ai/confirmations.py:57-244 | and for a run that never had a confirmation of its own only the claim is left |
| Schedules.UndisturbedDecision | backend/app/assistant/routes.py:454-494 | a request whose reads and write nothing comes between decides as specified |
| Schedules.UndisturbedExpiry | backend/app/ai/confirmations.py:228-232 | such a sweep expires what is overdue |
| Schedules.UndisturbedClosing | backend/app/ai/confirmations.py:233-243 | and closes a waiting run whose newest confirmation is decided against |
| Schedules.AskedIsReached | backend/app/ai/controller.py:496-508 | the state that the schedules below start from is reached from the empty one |
| Schedules.SweepTakesBack | backend/app/ai/confirmations.py:206-232 | from the empty state: a request confirms just before the deadline, a sweep that found the row pending just after it writes last; the confirmation ends expired, its call confirmed, its run cancelled |
| Schedules.TwoMessages | backend/app/ai/confirmations.py:140-148 | a late request and a sweep both read the run as waiting, and the chat gets two closing messages |
| Schedules.TwoMessagesByVisit | backend/app/ai/confirmations.py:233-242 | so it does when a rejection comes between the second loop's two queries |
| Schedules.LostWhileAsking | backend/app/ai/controller.py:496-508 | a worker lost between its two commits leaves a pending confirmation behind a run that never waits |
| Schedules.RejectedWhileAsking | backend/app/ai/controller.py:496-508 | a rejection between them leaves a run waiting behind a decision against it |
| Schedules.FailedActionLeavesCall | backend/app/assistant/runner.py:433-446 | the user approves, the action fails, and after the rollback the call is confirmed behind a failed run |
| Schedules.EarlyClaimUncouples | backend/app/assistant/routes.py:305-339 | a resumption requested before the decision leaves a pending confirmation behind a failed run |
| Schedules.AskedTwiceIsReached | backend/app/ai/tool_runtime.py:288-300 | the state of two runs that wait for one confirmation is reached |
| Schedules.SecondRunStuck | backend/app/ai/tool_runtime.py:288-300 | there, after the shared confirmation is rejected, the second run stays as it is over any steps but its own claim |
| Schedules.ReuseHidesCard | backend/app/ai/confirmations.py:247-266 | there the session is offered no card although the decision would be accepted |
| Confirmations.OfferedIffAccepted | backend/app/ai/confirmations.py:247-266 | in a coupled state the restored card is offered exactly when its requester's decision would be accepted, for the session's newest waiting run |
| Confirmations.OfferedIff | backend/app/ai/confirmations.py:247-266 | in any state: for the newest waiting run's newest pending confirmation, exactly when that decision would be accepted |
| ConfirmationDesk.Desk.GetPending | backend/app/ai/confirmations.py:126-148 | the checks in order, as `CheckMeans` has them; an overdue confirmation is expired and committed before the error |
| ConfirmationDesk.Desk.DecideRequest | backend/app/assistant/routes.py:454-494 | which answer is given under which condition: not found outside the organisation, forbidden to anyone but the requester and admins, then already decided, too late or accepted; the committed state, though errors roll back, is the decided one, and differs from the old one only if the user is the requester or an admin and the confirmation was pending |
| Confirmations.CheckMeans | backend/app/ai/confirmations.py:126-148 | each of the five answers with its exact condition on the confirmation, the user and the time |
| Confirmations.DecideMeans | backend/app/assistant/routes.py:454-494 | what a request changes, field by field: nothing for a stranger or when it is decided; else the decision or, past the deadline, the expiry, the call with it, and for a decision against it the waiting run and one message |
| ConfirmationDesk.Desk.LateRequest | backend/app/ai/confirmations.py:140-147 | alone, answered "expired" means: expiry, cancelled run and one closing message are committed |
| ConfirmationDesk.Desk.ClaimRun | backend/app/assistant/routes.py:319-332 | of several requests one moves the waiting run on, and that is committed |
| ConfirmationDesk.Desk.CarryOutRun | backend/app/ai/tool_runtime.py:303-365 | the worker's half with its commits and rollbacks ends in the committed state that the step gives, for every outcome of the action |
| ConfirmationDesk.Desk.CloseTurnFor | backend/app/ai/confirmations.py:175-203 | closing a turn stores one message and cancels the run, only while it waits |
| ConfirmationDesk.Desk.ExpireOverdue | backend/app/ai/confirmations.py:228-232 | alone with the database, the first loop expires overdue pending confirmations and nothing else: exactly the smaller of the limit and their number, so the rest is left for later sweeps |
| ConfirmationDesk.Desk.CloseStuckRuns | backend/app/ai/confirmations.py:233-243 | the second loop closes exactly the runs decided against among the waiting runs its query returned, and nothing else |
| ConfirmationDesk.StarvedIff | backend/app/ai/confirmations.py:233-243 | a sweep can pass a stuck run over if and only if more runs wait than the limit, and can close none at all if and only if at least as many healthy runs wait as the limit |
| Schedules.StarvingIsReached | backend/app/ai/confirmations.py:233-243 | a stuck run and a healthy waiting one are reached |
| Schedules.HealthyStarvesStuck | backend/app/ai/confirmations.py:233-243 | there, with room for one row, the query can pass over the stuck run |
| ConfirmationDesk.Desk.SweepConfirmations | backend/app/ai/confirmations.py:221-244 | alone, and when both queries fit, nothing is left to do; a second sweep at the same time changes nothing; the coupling is kept |
| ConfirmationDesk.Desk.PendingConfirmationForSession | backend/app/ai/confirmations.py:247-266 | the query returns the offered confirmation, and none only when no confirmation is offered |
| History.LoadSessionHistory | backend/app/ai/controller.py:255-325 | the result is the longest suffix of the merged, trimmed turns that is empty or starts with the user and fits both budgets, and it can be replayed |
| History.VisibleAt | backend/app/ai/controller.py:279-288 | the rows asked for are exactly those of a speaker that are not the excluded one, in their order |
| History.LatestAt | backend/app/ai/controller.py:275-291 | the rows merged are the latest of these: one is left out only when the limit is reached by later ones |
| History.LatestIsReplayed | backend/app/ai/controller.py:255-325 | when the last of these rows is the assistant's and has text, every non-empty window ends in the assistant's turn and that turn ends in this text |
| History.Merge | backend/app/ai/controller.py:295-303 | the merge loop joins the maximal runs of one speaker |
| History.SpokenSum | backend/app/ai/controller.py:296-299 | what rows say is what each of them says, one after the other (`SpokenOne`: a row says its stripped text, or nothing when that is empty) |
| History.MergedAt | backend/app/ai/controller.py:295-303 | the merged turns are cut from what is said: rising marks split it into stretches of one speaker each, neighbours differ, and every turn is its stretch joined by blank lines |
| History.RunsKeepEverything | backend/app/ai/controller.py:295-303 | merging loses no message and keeps the order |
| History.RenderedAlternates | backend/app/ai/controller.py:292-303 | merged turns alternate strictly and none is empty |
| History.TrimIsReplayable | backend/app/ai/controller.py:305-310 | trimming leaves turns that start with the user and end with the assistant |
| History.TrimIsLongest | backend/app/ai/controller.py:305-310 | trimming leaves the longest stretch that starts with the user and ends with the assistant: every other such stretch lies inside it |
| History.WindowFits | backend/app/ai/controller.py:312-325 | the kept-at-least-one exemption never lets an over-budget window through |
| Transcript.Rounds | backend/app/ai/controller.py:417-606 | every transcript sent is the one before plus the model's request and one result per use in order; and how a run of rounds ends |
| Transcript.RunTools | backend/app/ai/controller.py:473-603 | a result for every use, in order, with the use's id and marked as an error exactly when the use failed; or the first use that needs a confirmation |
| Transcript.AnswerOf | backend/app/ai/controller.py:559-603 | the answer to a use has its id, and is an error exactly when the use failed |
| Transcript.StreamAssistantRun | backend/app/ai/controller.py:399-606 | the first call has the history window and the prompt; every call starts and ends with the user, alternates strictly and has its tool uses answered |
| Transcript.ResumeAssistantRun | backend/app/ai/controller.py:708-884 | the same for every call after a resumption, which answers the use that waited |
| Transcript.AssistantTurn | backend/app/ai/controller.py:399-884 | the same for a whole turn with any number of pauses: the set of paused rounds of each call is named, has at most one for each confirmation, and each call goes on from the one before, by a round or by a resumption |
| Transcript.ProperAfterResume | backend/app/ai/controller.py:708-729 | the confirmed tool's result makes a saved pause sendable |
| Handles.NumberedMeans | backend/app/ai/controller.py:1006-1014 | a numbered chat's handles are contract-0, contract-1, … for distinct contracts |
| Handles.MintKeepsNumbered | backend/app/ai/controller.py:988-1026 | minting by number is never refused in a numbered chat and keeps every chat numbered |
| Handles.HandleForKeeps | backend/app/assistant/service.py:47-95 | whoever writes, every chat keeps one row per contract and per handle, at most the contract asked for is added, only to its chat, and no existing row changes |
| Handles.HandleResolves | backend/app/ai/tool_runtime.py:2640-2661 | a handle handed out, minted or asked for, resolves to its contract, then and later |
| Handles.MintRefusedIff | backend/app/assistant/models.py:87-90 | minting for a new contract is refused by the unique constraint if and only if the chat has a handle with its row count as number |
| Handles.RefusedUntilAsked | backend/app/assistant/service.py:65-95 | from then on every mint for a new contract in that chat is refused and nothing is added, until a handle is asked for by name |
| Handles.RequestedHandleBlocks | backend/app/assistant/service.py:65-75 | such a chat: after one handle is asked for under the next number |
| Handles.AllRefusedIff | backend/app/assistant/models.py:87-90 | in any chat, minting for a list of contracts is refused if and only if one of the next numbers, as many as there are contracts without a handle, is taken; otherwise it takes these numbers |
| Handles.HandleMapFinds | backend/app/ai/tool_runtime.py:1137-1145 | the map read once answers what a query per contract does |
| Masking.HandleTable.HandleForContract | backend/app/ai/controller.py:988-1026 | the method returns and stores the specified handle, or is refused when the name is taken |
| Masking.HandleTable.EnsureContractHandle | backend/app/assistant/service.py:47-95 | the same for a handle that a user asks for by name |
| Masking.HandleTable.ContractHandles | backend/app/ai/tool_runtime.py:1132-1154 | minting for a list in one pass gives the rows that asking one by one gives, and is refused exactly when that would be |
| Masking.HandleTable.ModelSafeResult | backend/app/ai/controller.py:1092-1128 | the recursive rebuild, with its one side effect on the handle table |
| Masking.HandleTable.ShowResult | backend/app/ai/controller.py:1092-1128 | a refused handle ends the whole result, and its transaction takes back the handles minted before it |
| Masking.MaskIsClean | backend/app/ai/controller.py:1101-1128 | at any depth the output has no internal key and no non-empty string under `contract_id`, for every result that is not refused |
| Masking.EmptyIdStays | backend/app/ai/controller.py:1101-1128 | an empty contract id is left alone |
| Masking.MaskMints | backend/app/ai/controller.py:1092-1128 | a result adds handles for exactly the contract ids it shows, in its own chat |
| Masking.MaskKeepsNumbered | backend/app/ai/controller.py:1006-1014 | in a numbered chat no result is refused, and every chat stays numbered |
| Masking.MaskRefusedIff | backend/app/assistant/models.py:87-90 | in any chat, a result is refused if and only if one of the next numbers, as many as it shows contracts without a handle, is taken; otherwise it takes these numbers |
| Masking.TwoNewRefused | backend/app/assistant/service.py:65-95 | a chat in which one new contract is shown but two in one result are refused |
| Masking.UnmaskUndoesMask | backend/app/ai/controller.py:1092-1128 | looked up then or later, the handles of the output mean what the ids and handles of the input mean, for every result in which no dict has both |
| Masking.MaskIsFaithfulIff | backend/app/ai/controller.py:1101-1128 | the output looked up is the input without its internal keys if and only if no shown dict has both a handle key and a contract id, nor a handle key that resolves |
| Masking.BothKeysLoseOne | backend/app/ai/controller.py:1108-1117 | a dict with both comes out with the minted handle alone |
| Masking.LoneHandlePasses | backend/app/ai/tool_runtime.py:1216-1226 | a lone known handle, as the search tools return it, passes through and resolves |
| Masking.RunIsNumbered | backend/app/ai/controller.py:988-1026 | after any run in which no handle is asked for by name, a chat's handles are numbered from zero, are those of exactly the contracts it was shown, and no result is refused |
| Masking.RunGrows | backend/app/ai/controller.py:1003-1004 | handles are stable: a longer run only adds rows |
| Masking.EveryResultUnmasks | backend/app/ai/controller.py:1092-1128 | every result of a run, handles asked for by name included, resolves at its end, and is the result itself under exactly that condition |
| ClauseSegments.SegmentsFromElements | backend/app/ai/clause_segments.py:46-72 | the nested loops compute, for every offered element, its id, level, number, heading, start, furthest end and excerpt |
| ClauseSegments.BodyAt | backend/app/ai/clause_segments.py:54-54 | the body is exactly the elements that are no page furniture and have a start, in order |
| ClauseSegments.OfferedMeans | backend/app/ai/clause_segments.py:55-57 | offered are exactly the clauses and headings up to level two, or up to level one when there are more than 250 of those |
| ClauseSegments.SegmentMeans | backend/app/ai/clause_segments.py:58-71 | a segment's fields; it reaches up to the next clause or heading of its level or above, and its end is the largest end offset among these elements, its own start standing in for a missing or zero one of its own |
| ClauseSegments.HeadingIsLine | backend/app/ai/clause_segments.py:41-43 | a heading is one line of at most 140 characters, empty only for a blank text |
| ClauseSegments.HeadingMeans | backend/app/ai/clause_segments.py:41-43 | it is the text from its first character that is no white space, up to 140 characters, a line end, or the white space at the end |
| ClauseSegments.WordsMean | backend/app/ai/clause_segments.py:67-71 | an excerpt's words: white space anywhere separates words, and a text without any is one word |
| ClauseSegments.ExcerptIsTight | backend/app/ai/clause_segments.py:67-71 | an excerpt is at most 300 characters whose white space is single spaces between words |
| ClauseSegments.CandidateFacts | backend/app/ai/clause_segments.py:54-57 | the offered elements are exactly the clauses and headings up to the depth, each once, in order |
| ClauseSegments.SegmentsAreLaminar | backend/app/ai/clause_segments.py:58-71 | of two segments the later is behind the earlier, or strictly deeper and opened inside it; then it ends inside if and only if it starts where that does or some element of that reaches its start, and otherwise it is an empty stretch behind it |
| ClauseSegments.EmptyStretch | backend/app/ai/clause_segments.py:62-66 | a clause without an end behind the end of the section it is opened in |
| ClauseSegments.ElementInOneSection | backend/app/ai/clause_segments.py:54-71 | every element from the first section on belongs to one level-one segment, offered also when level two is dropped, and is apart from all others; it lies in its own whenever it has an end, and in general if and only if it starts where that does or some element of it reaches its start |
| ClauseSegments.EndlessOutside | backend/app/ai/clause_segments.py:62-66 | an element without an end that lies outside its section |
| ClauseSegments.ClauseRows | backend/app/ai/clause_segments.py:75-91 | each row has its label's type and confidence and its own segment's heading, text slice and offsets, for the chosen segments in label order |
| ClauseSegments.RowText | backend/app/ai/clause_segments.py:86-91 | a row has its segment's offsets and heading, its label's type and confidence, and exactly the characters from its start to its end or the end of the text |
| ClauseSegments.ChosenFacts | backend/app/ai/clause_segments.py:78-85 | a segment is chosen at most once, exactly when some label names it, and from the first such label |
| ClauseSegments.SegmentIdsDiffer | backend/app/ai/clause_segments.py:59-71 | different positions have different ids |
| ClauseIndex.Index.ReplaceClauses | backend/app/ai/controller.py:1641-1697 | the method's reply and tables are the guarded swap's |
| ClauseIndex.ReplyMeans | backend/app/ai/controller.py:1650-1675 | accepted exactly when the extraction's version is the contract's current one; an empty one is a failure that tells how many live clauses are kept, if there are any; nothing but a swap changes the rows |
| ClauseIndex.SwapMeans | backend/app/ai/controller.py:1676-1697 | the table place by place after a swap: exactly the contract's live rows retired in the user's name, everything else as it was, and then one row for each clause with its fields |
| ClauseIndex.Index.MarkStale | backend/app/ai/controller.py:1676-1678 | the loop retires exactly the contract's live rows |
| ClauseIndex.LiveIsLastAccepted | backend/app/ai/controller.py:1641-1697 | over any order of promotions and completions, live rows are exactly those of the last non-empty extraction that finished while its version was current |
| ClauseIndex.LiveRowsOfOneVersion | backend/app/ai/controller.py:1680-1697 | they are of one version, current when extracted, and say what it found |
| ClauseIndex.LateExtractionChangesNothing | backend/app/ai/controller.py:1651-1660 | a late extraction of another version leaves everything as it was |
| ClauseIndex.RunsOnlyGrow | backend/app/ai/controller.py:1676-1697 | rows are only added, never rewritten, and stale never reverts |
| ClauseIndex.LiveStaysLive | backend/app/ai/controller.py:1668-1675 | once a contract has live clauses it always has some |
| TokenCap.Meter.Eval | backend/app/ai/cost_guard.py:43-51 | refused exactly when the cap is spent, otherwise the tokens are added |
| TokenCap.Meter.ReserveTokens | backend/app/ai/cost_guard.py:69-91 | the reply and counters of a reserve, also when the command or its reply is lost |
| TokenCap.ReserveMeans | backend/app/ai/cost_guard.py:69-91 | a call is refused exactly when the answered store has the cap spent, and holds a reservation exactly when it has not; the counter moves whenever the command arrives, also when its reply is lost |
| TokenCap.Meter.SettleTokens | backend/app/ai/cost_guard.py:108-123 | a settle corrects its own reservation's counter |
| TokenCap.Meter.TokensLeft | backend/app/ai/cost_guard.py:94-105 | what is left, never negative |
| TokenCap.LeftMeans | backend/app/ai/cost_guard.py:94-105 | what is left and what is spent make the cap, or nothing is left when the cap is spent; unknown exactly without organisation, cap or answer |
| TokenCap.ReserveTakesFromLeft | backend/app/ai/cost_guard.py:43-105 | a granted reserve takes its estimate from what is left, down to nothing |
| TokenCap.NothingLeftIffRefused | backend/app/ai/cost_guard.py:94-105 | nothing is left exactly when a reserve would be refused |
| TokenCap.TokensAreConserved | backend/app/ai/cost_guard.py:43-123 | over every interleaving each counter is settled actuals plus outstanding plus leaked reservations |
| TokenCap.OverrunIsBounded | backend/app/ai/cost_guard.py:43-123 | with K calls in flight, each overrunning by at most D, no counter passes cap - 1 + E + K·D |
| TokenCap.FrugalIsBounded | backend/app/ai/cost_guard.py:43-123 | without overruns no counter passes cap - 1 + E, however many calls run at once |
| TokenCap.EveryRun | backend/app/ai/cost_guard.py:43-123 | conservation and both bounds hold of every run from an empty store with a positive cap |
| TokenCap.BoundIsMet | backend/app/ai/cost_guard.py:43-123 | for every number of calls in flight, cap, estimate and overrun there are steps that reach the bound, so it cannot be lowered |
| TokenCap.StepTouchesOwnKey | backend/app/ai/cost_guard.py:111-116 | a step touches only its own organisation and day, a settle after midnight the day of its reservation |
| SseFramer.ApiStreamPost | word-addin/public/taskpane.js:156-173 | for any way of cutting the stream, the events are those of the whole stream split at once, without the unfinished tail |
| SseFramer.SplitAfterRead | word-addin/public/taskpane.js:160-162 | splitting, keeping the tail and splitting again with more text is splitting the whole, also when the cut is inside a separator |
| SseFramer.ReadBlock | word-addin/public/taskpane.js:164-168 | the line loop reads a block's event name and data lines, which `BlockMeans` has in full |
| SseFramer.EmitBlocks | word-addin/public/taskpane.js:163-172 | the loop over a read's complete blocks emits one event for each block with data |
| SseRoundTrip.ReadingUndoesPrinting | word-addin/public/taskpane.js:156-173 | any list of messages is read back, whatever unfinished text follows: each a block of event, data and other lines (identifiers, comments) in any order and number, printed with either line end; without an event line the name is "message", and without data nothing is emitted |
| SseRoundTrip.ReadPrinted | word-addin/public/taskpane.js:156-173 | the read loop gives them back under any cut |
| SseRoundTrip.BlockMeans | word-addin/public/taskpane.js:164-172 | for any block of solid lines: the data are exactly the trimmed values of the lines that start with `data:`, in order, and the name is that of the last line that starts with `event:`, or "message" |
| SseRoundTrip.EmitsIff | word-addin/public/taskpane.js:164-172 | such a block emits an event if and only if some line starts with `data:` |
| SseRoundTrip.ServerEvent | backend/app/assistant/routes.py:504-507 | an event as the server sends it, with an identifier line, comes out as that event |
| SseRoundTrip.LinesOfJoin | word-addin/public/taskpane.js:165-168 | splitting a block into lines undoes joining them |
| Base64.StrictIffDecodable | mcp-server/aegis_intake_mcp/limits.py:51-58 | the strict check accepts exactly the strings that section 4 of RFC 4648 decodes |
| Base64.DecodeFailsOnlyOnLineFeed | mcp-server/aegis_intake_mcp/limits.py:51-58 | past pattern and length, decoding fails if and only if the value ends in a line feed |
| Base64.LineFeedPassesPattern | mcp-server/aegis_intake_mcp/limits.py:51-58 | such a value exists |
| Base64.DecodeUndoesEncode | mcp-server/aegis_intake_mcp/limits.py:54-58 | decoding what was encoded gives the bytes back |
| Base64.EncodeUndoesDecodeIff | mcp-server/aegis_intake_mcp/limits.py:54-58 | a decodable value is what its bytes encode to exactly when its unused bits are zero |
| Base64.DecodableIsLetters | mcp-server/aegis_intake_mcp/limits.py:51-58 | a decodable value is letters with at most two pads, and its size follows from its length |
| Preflight.PreflightAttachments | mcp-server/aegis_intake_mcp/limits.py:71-123 | a list passes if and only if it is acceptable, with its files in order; a refusal is the first failing check on the first failing item |
| Preflight.PassedMeans | mcp-server/aegis_intake_mcp/limits.py:5-7 | reaching a check on an item means that every earlier check, and this one on every earlier item, was passed |
| Preflight.AcceptableIffWithinLimits | mcp-server/aegis_intake_mcp/limits.py:71-123 | a list that carries files is acceptable if and only if they are at most five, none empty, within both size limits; the true sizes are reported |
| Preflight.AcceptableCarries | mcp-server/aegis_intake_mcp/limits.py:93-104 | every acceptable list carries files |
| Preflight.EncodedItemCarries | mcp-server/aegis_intake_mcp/limits.py:81-91 | a file encoded with white space inserted anywhere is carried |
| Preflight.DecodableIsNoReference | mcp-server/aegis_intake_mcp/limits.py:61-68 | no decodable value is taken for a URL or a path, not even with a leading slash |
| Preflight.ReferenceIff | mcp-server/aegis_intake_mcp/limits.py:61-68 | a value is taken for a URL or a path exactly when it does not decode and starts with a tilde, a slash, a backslash, a drive, or a scheme and `://` |
| Preflight.OneReason | mcp-server/aegis_intake_mcp/limits.py:5-7 | a refusal has one reason |
| Preflight.RefusalMeans | mcp-server/aegis_intake_mcp/limits.py:71-123 | the names and numbers of each refusal, and the condition it reports |
| Chunks.ChunkText | backend/app/ai/context.py:248-261 | numbered slices, consecutive ones overlapping exactly, reaching the end of the text |
| Chunks.NoProgress | backend/app/ai/context.py:254-260 | outside the method's precondition the loop never ends |
| Chunks.TilingIsUnique | backend/app/ai/context.py:248-261 | that specification has one solution |
| Chunks.ChunksRebuildText | backend/app/ai/context.py:248-261 | the first chunk and the later chunks' tails rebuild the text |
| Chunks.ShortPassageInOneChunk | backend/app/ai/context.py:248-261 | every substring of up to the overlap plus one characters is whole in one chunk |
| Chunks.LongerPassageIsCut | backend/app/ai/context.py:248-261 | one character more, and a passage is whole in none |
| AuditChain.AuditLog.BackfillHashChain | backend/alembic/versions/0006_audit_hash_chain.py:39-93 | the backfill's updates turn the listing into the chained listing and change no entry; offline it only checks |
| AuditChain.AuditLog.Upgrade | backend/alembic/versions/0006_audit_hash_chain.py:21-28 | with an injective hash the unique index can always be built, and the chain is valid and guarded |
| AuditChain.AuditLog.SetHashes | backend/alembic/versions/0006_audit_hash_chain.py:81-91 | the update reaches the row with its id, and none once the triggers are in place |
| AuditChain.OrderedSorts | backend/alembic/versions/0006_audit_hash_chain.py:59-76 | the listing is sorted by time and id and has the table's rows, each once |
| AuditChain.OlderFirst | backend/alembic/versions/0006_audit_hash_chain.py:75-75 | of two listed rows the earlier has the smaller time, or the same time and the smaller id |
| AuditChain.ChainedIsValid | backend/alembic/versions/0006_audit_hash_chain.py:78-93 | every chained row's hash commits to its fields and its predecessor's hash |
| AuditChain.ChainedSameIffValid | backend/alembic/versions/0006_audit_hash_chain.py:78-93 | chaining anew changes nothing exactly when the chain is valid |
| AuditChain.SameLastHashSameLog | backend/alembic/versions/0006_audit_hash_chain.py:96-115 | two valid logs with the same last hash are the same log |
| AuditChain.RowHashesDistinct | backend/alembic/versions/0006_audit_hash_chain.py:27-27 | row hashes are distinct |
| AuditChain.WriteAuditLog | backend/app/core/audit.py:33-79 | an append adds the row linked to the last one listed |
| AuditChain.AppendKeepsIff | backend/app/core/audit.py:49-79 | the chain is valid after an append if and only if it was before and the new row is listed last |
| AuditChain.AppendInTimeIff | backend/app/core/audit.py:49-79 | so it is valid if and only if it was before and every row there has a smaller time than the new one, or the same time and a smaller id |
| AuditChain.RunValidIff | backend/app/core/audit.py:49-79 | over any run of appends it is valid if and only if every one of them was in order |
| AuditChain.RunAll | backend/alembic/versions/0006_audit_hash_chain.py:123-147 | any run of updates, deletions and appends does what the specified operations do, one by one |
| AuditChain.GuardedOnlyGrows | backend/alembic/versions/0006_audit_hash_chain.py:123-147 | with the triggers in place, which make every update and deletion do nothing, such a run leaves every old row as it was and comes out as its accepted appends alone |
| AuditChain.GuardedValidIff | backend/app/core/audit.py:49-79 | so its chain stays valid if and only if the accepted appends were in order |
| AuditChain.RemovalKeepsIff | backend/app/core/audit.py:103-122 | without the triggers, removing a row from a valid chain is noticed by the check unless it is the one listed last |
| AuditChain.RehashKeepsIff | backend/app/core/audit.py:103-122 | and changing any row's hashes is always noticed |
| AuditChain.ClockTieBreaksChain | backend/app/core/audit.py:56-60 | equal clock readings with a smaller second id break it |
| AuditChain.VerifyAuditHashChain | backend/app/core/audit.py:103-122 | the check accepts exactly the valid chains |

## Left out

- StageNotAllowedIff: states when a disallowed stage appears; nothing in the source prevents it.
- UpgradeFollowsLifecycle: needs the fixed steps in order with at most one signature and no counterparty step ahead of a draft; `MonotoneIffShaped` has the exact condition on the reordered list.
- ResumeAssistantRun: sibling tool uses of the use that paused are not answered, so a fully answered round is claimed only where no pause happened.
- Steps: a `parallel` entry is absent, true or false; the name's trimming and lower-casing is a flag, a step's other entries are one string, and dicts shared between lists are values.
- CloseTurnFor: does not set the answering message on the run's tool calls; messages keep run, confirmation and outcome but not their wording.
- ExpireOverdue: is alone with the database, like the other methods of the desk; `Interleavings` and `Coupling` have the sweep's reads and writes apart, and `Schedules` ties the two together.
- SweepConfirmations: the same.
- Ask: which earlier call is identical and less than ten minutes old is a parameter.
- CarryOut: the worker's checks and the action are one step; what commits during the action comes before or after it. A run has one worker at a time, as its claim in the store ensures.
- WriteStep: a sweep's writes are taken one by one and not as one transaction, which allows more orders than there are.
- A session belongs to one organisation; confirmations and runs are numbered in the order they were created, so equal creation times do not arise.
- `carry_forward_job`: which extraction is the donor is settled by clock readings.
- The counter's expiry in the store, SHA-256 and JSON text (the hash is an injective function), UTF-8 decoding, and JSON parsing of event data (an event carries the text handed to the parser).
- PreflightAttachments: a refusal carries the names and numbers its message is made from, not the wording.
- AppendKeepsIff: `ip_address`, `user_agent` and the other fields are parameters; writing the audited change in the same transaction is not part of this model.
- RemovalKeepsIff: is about one removal; a check cannot notice that the newest rows are gone.
- ContractHandles: assumes one row per contract and per handle in a chat, which the table's unique constraints guarantee.
- Permissions, ethical walls, usage rows, the model gateway, Word and Office calls, rendering and the other migrations: no property that spans steps.
