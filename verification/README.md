# What the workbench keeps

A research workbench lets a user hand a conversation over to an expert. The expert is a table of steps. For
every step an interpreter opens an attempt, reserves budget, runs one turn of a model, judges what came back,
and goes on, does the step again, goes back to an earlier one, or asks the user. A ledger is the only writer of
tasks: their states, their budget and its journal, the wheel that says who drives a conversation, the queue of
experts of a project, and the questions put to the user. Beside it runs a transactional outbox that publishes
messages, consumes them under fenced leases and recovers what is lost. This project models both as transition
systems, proves what holds in every state of every run, and proves the programs' own in-place code equal to the
models, statement by statement. It also models what the two lean on: accounting of tokens and money, the tiers
of tool approval, paths of projects, and the comparison of query results.

## How it is laid out

- `Prelude`, `States`: shared values; the state words and their tables.
- `TaskRows`, `RowProofs`: one task with its attempts, interactions and journal; what every transaction keeps of it.
- `LedgerSpec`, `LedgerOutcomes`, `WheelProofs`, `LedgerRuns`, `History`, `Findings`, `Overspend`: the ledger over
  all sessions and tasks, what each transaction comes to, its joint invariant, whole runs, what a run can never undo,
  and the exact conditions of its promises.
- `Ledger` (module `LedgerService`): the ledger as an object, with nested transactions and rollback.
- `Packs`, `AdvisorSpec`: expert packs and the interpreter as a state machine, one store action a step.
- `AdvisorWork`, `AdvisorFlow`, `AdvisorBounds`, `AdvisorRuns`, `AdvisorTurns`, `AdvisorRestarts`: fresh inputs,
  money and states under the driver, the bound on turns, whole lives of a task, what follows every turn, and when an
  interrupted one goes on.
- `AdvisorLink`, `Together`: the tie between the two, and one driver at work in the whole ledger.
- `AdvisorService`, `StepView`: the loop as an object, and the rail of steps shown to the user.
- `DeliverySpec`, `DeliveryOutcomes`, `DeliveryRuns`, `DeliveryWorkers`, `DeliveryRecovery`, `DeliveryPasses`,
  `DeliveryPump`, `DeliveryService`: the outbox, what each event comes to, its interleavings, one consumer among the
  others, recovery and gauges, the passes of a reconciliation, the pump, and the code.
- `Pricing`, `ConversationUsage`, `ToolPolicy`, `Paths`, `Workspaces`, `Truth`, `TruthOrder`, `TruthKeys`: the calculations
  beside them.

## What is assumed

- Each transaction is one atomic step. The handover locks its project's row (ledger.py:117), a state move does
  not, so this is more than the locks by themselves guarantee.
- One driver per task (runner.py:1332-1341). Everybody else may write the task's row between any two store
  actions of the driver, and the driver may stop dead between any two.
- The store refuses a write that breaks the partial unique index on active tasks of a project
  (20261012_0015_tool_approvals.py:64-75), and the transaction is rolled back.
- A pack has distinct step names and output names, none called `handback`, steps read only what earlier steps
  hand back and go back only to earlier steps, and it has at least one step. All built-in packs are like that;
  the validator does not ask for it.
- Callers of the ledger in `LedgerRuns` keep to `Disciplined`: no `queued_behind` of their own where there is nobody
  to queue behind, positive limits, nobody takes a task out of a wait except through its answer, only a capped task
  is asked for budget. A driver's transactions keep to it by themselves (`Together.OwnIsDisciplined`).
- What a turn brings, verdicts, answers, crashes, clocks, the broker and what a handler does are arbitrary
  inputs. Amounts are real numbers.

## Where code and documentation part

Each of these is decided by a condition that can be looked at beforehand; the theorem named says that the promise
holds if and only if it does.

- advisor.py:5 promises that after a crash the task goes on from its cursor. It can if and only if the crash left
  no attempt open (`AdvisorRestarts.RestartGoesOn`).
- ledger.py:450-500 opens an attempt without looking at the state, so a finished task can still take a turn: one at
  the most, and if and only if its driver already stands past its look at the task (`AdvisorRestarts.OneLateTurn`).
- ledger.py:390-436 promises to settle the cancel of a task that is not running at once. For a queued task the
  attempt to start the next expert can make the whole request fail (`Findings.CancelGoesThrough`).
- ledger.py:457-492 keeps the overspend to one attempt. That holds if and only if every accepted top-up covers
  (`Overspend.OverspendIsOneAttempt`), and a top-up that takes away the whole limit ends all attempts
  (`Overspend.TopupBelowZeroBreaks`).
- runner.py:1247 promises that taking over a machine queues its driverless tasks again. A waiting task can go on if
  and only if it does not wait for a tool approval and can still be answered (`AdvisorRestarts.TakenOverGoesOn`).
- projects.py:100 promises the longest workspace. It is found in every order if and only if a longest one is weighed
  in full or cannot be misjudged for another (`Workspaces.LongestInAnyOrder`).
- pricing.py:157-164 promises that gaps are made up for. That holds if and only if the totals do not shrink after the
  split into parts (`Pricing.Telescopes`); it does for numbers that fit together (`Pricing.GapsAreMadeUp`).
- truth.py:170-172 sorts by the keys alone. Row order makes no difference if and only if rows that share a key agree
  (`TruthOrder.OrderMattersExactly`).

## Model

| member | source | states |
|---|---|---|
| `States.TerminalIsFinal` | app/app/domain/workbench/states.py:24-106 | The terminal words of tasks and attempts are exactly the ones with no way out in their transition tables. |
| `States.WaysIn` | app/app/domain/workbench/states.py:28-132 | Only a running task succeeds, only the queue leads to running, only a task being validated is rejected, any open one can be cancelled, none is received twice, and a wait has a reason. |
| `States.AttemptWaysIn` | app/app/domain/workbench/states.py:83-138 | Only a running attempt completes or spends too much, and only a suspended one is abandoned. |
| `RowProofs.OpenFits` | app/app/application/workbench/ledger.py:457-500 | Right after any attempt opens on a capped task, used plus reserved is within the limit. |
| `RowProofs.NewTaskInv` | app/app/application/workbench/ledger.py:129-199 | The row a handover inserts, with its initial top-up, satisfies the row invariant. |
| `RowProofs.ChargeIsExact` | app/app/application/workbench/ledger.py:558-594 | If what is reserved is an attempt's unspent part, then after any charge it still is, and an ending attempt gives back exactly that, whatever partial charges came before. |
| `RowProofs.OpenAttemptKeeps` | app/app/application/workbench/ledger.py:450-507 | Opening an attempt keeps one live attempt, reservations equal to the live attempt's unspent part, columns equal to the journal, the overspend bound and one wait at a time. |
| `RowProofs.MoveAttemptKeeps` | app/app/application/workbench/ledger.py:543-619 | So does every move of an attempt, with its charge, its release and the wait for budget it may start. |
| `RowProofs.AskKeeps` | app/app/application/workbench/ledger.py:691-743 | So does opening an interaction, if only a capped task is asked for budget. |
| `RowProofs.AnswerKeeps` | app/app/application/workbench/ledger.py:756-875 | So does an accepted answer: consumed, row released, limit and journal raised together, state moved. |
| `RowProofs.MoveKeeps` | app/app/application/workbench/ledger.py:270-342 | So does every state move that does not take a task out of a wait somebody is still asked about. |
| `RowProofs.ExpireKeeps` | app/app/infrastructure/workbench/repository.py:2277-2297 | So does expiring the pending tool approvals of a dead connection. |
| `WheelProofs.EndingTheActiveTask` | app/app/application/workbench/ledger.py:310-343 | When a project's active task ends, the ending succeeds, the wheel returns, and the earliest queued task of the project, if any, is the active one: the busy check never leaves it stranded. |
| `WheelProofs.QueueMovesUp` | app/app/application/workbench/ledger.py:223-256 | First in, first out: whenever the active expert of a project ends, every queued task of the project moves up by exactly one, and the first starts. |
| `WheelProofs.EndingAQueuedTask` | app/app/application/workbench/ledger.py:342-343 | Ending a task that is still queued succeeds if and only if nobody else is queued in its project or the first of them shares its conversation with the active expert; otherwise the unique index refuses and everything is rolled back. |
| `WheelProofs.StartNextFills` | app/app/application/workbench/ledger.py:223-256 | With a project's place vacant, the earliest queued task and no other is started, and its conversation hands over the wheel. |
| `WheelProofs.NextIsFree` | app/app/application/workbench/ledger.py:228-230 | When a project has no active task the busy check cannot hold back its next expert: that conversation could only be busy with a task of the same project. |
| `WheelProofs.StartNextBesides` | app/app/application/workbench/ledger.py:223-256 | With the place taken, starting the next one does nothing or is refused, decided by whether the two share a conversation. |
| `WheelProofs.HandoverKeeps` | app/app/application/workbench/ledger.py:76-205 | A handover that makes a task keeps the wheel and queue invariant if and only if the caller's own context does not claim to be queued, or there is somebody to queue behind; a repeated one changes nothing. |
| `WheelProofs.TransitionKeeps` | app/app/application/workbench/ledger.py:259-344 | Every accepted state move keeps: a session's active task is its one unfinished task that is not queued, the wheel is with the advisor exactly then, one such task per project, and queued tasks only behind one. |
| `LedgerRuns.EveryRunKeeps` | app/app/application/workbench/ledger.py:57-887 | In every state of every run of callers that keep to the stated discipline, the wheel and queue invariant and the invariant of every row hold together. |
| `LedgerRuns.TransitionRows` | app/app/application/workbench/ledger.py:259-344 | A state move writes its own row and possibly un-queues one other; every other row is as it was. |
| `History.EveryRunIsLater` | app/app/application/workbench/ledger.py:57-887 | In any run by any callers versions never fall, journals only grow, finished attempts and settled interactions never change, terminal tasks stay terminal, and an unchanged version means unchanged columns. |
| `History.AnsweredOnce` | app/app/application/workbench/ledger.py:772-778 | An interaction whose answer was accepted refuses every later answer, whatever happens in between. |
| `History.AcceptedOnlyIfUntouched` | app/app/application/workbench/ledger.py:785-800 | An answer is accepted only if the task's row has not been written since the transaction that opened the interaction, be it a question or a spent budget. |
| `History.OpenedAtItsVersion` | app/app/application/workbench/ledger.py:691-715 | Only a question or a spent budget opens an interaction, one at a time, and it may move its task only at the version the row has in that very commit. |
| `History.AcceptedIsConsumed` | app/app/application/workbench/ledger.py:772-875 | An accepted answer is consumed and its task is out of the wait in the same commit. |
| `History.NoLooseEnds` | app/app/application/workbench/ledger.py:288-341 | In every reachable state a pending interaction is the one its waiting task waits for, and the one waited for is unused: leaving WAITING leaves none behind. |
| `Findings.CancelGoesThrough` | app/app/application/workbench/ledger.py:390-436 | A cancel succeeds for every task that is not queued, and for a queued one exactly under the condition of EndingAQueuedTask; it ends the task unless a turn is running. |
| `Findings.QueuedCancelRefused` | app/app/application/workbench/ledger.py:342-343 | A concrete run in which the cancel of a queued task is refused. |
| `Findings.ClientTagLetsTwoStart` | app/app/application/workbench/ledger.py:131-133 | A concrete run in which a caller's own queued_behind lets two conversations of one project hold the wheel, and the first expert cannot take a step. |
| `Findings.RetryIsIdempotent` | app/app/application/workbench/ledger.py:78-94 | Whatever happened since, the same key with the same digest answers with the same task and changes nothing, and with another digest is refused. |
| `Overspend.OverspendIsOneAttempt` | app/app/application/workbench/ledger.py:812-830 | A task, while open and capped, is over its limit by at most its newest attempt's consumption in every state of a run, if and only if every accepted top-up of it left a limit that covers all but that attempt. |
| `Overspend.StepIsExact` | app/app/application/workbench/ledger.py:57-887 | Of all transactions only an accepted top-up can break that bound, and it does exactly if the amount does not cover. |
| `Overspend.AddingIsSafe` | app/app/application/workbench/ledger.py:457-492 | With no negative top-up in its journal a task keeps the bound. |
| `Overspend.AnyTopupIsAccepted` | app/app/application/workbench/ledger.py:812-837 | A run from the empty ledger in which any amount is accepted as a top-up: too negative a one breaks the bound, a more negative one makes the budget unreadable. |
| `Overspend.TopupBelowZeroBreaks` | app/app/application/workbench/ledger.py:813-837 | An accepted top-up leaves a readable budget, and the next opening is not refused for an unreadable one, exactly if something is left of the limit; if nothing is, no attempt of the task is ever opened or charged again, whatever anybody does. |
| `Findings.AnsweredInATurn` | app/app/application/workbench/ledger.py:851-875 | A task can be back in QUEUED with its attempt still live. |
| `Findings.ExpiryClosesApprovals` | app/app/infrastructure/workbench/repository.py:2277-2297 | After expiry exactly the tool approvals can no longer be answered, and the task's wait is as it was. |
| `LedgerOutcomes.AnswerLeads` | app/app/application/workbench/ledger.py:809-875 | An accepted answer frees its task and sends it where the user said: on a budget question to the queue exactly for a top-up with an amount and to its end otherwise, on any other to its end for a stop and else exactly to the state asked for; only the top-up touches limit and journal. |
| `LedgerOutcomes.AcceptedExactly` | app/app/application/workbench/ledger.py:756-800 | An answer is accepted if and only if token, subject and time are right, its question is pending, waited for and unwritten since, a budget to top up can be read, and a waiting task may move to the state asked for. |
| `LedgerOutcomes.StopStops` | app/app/application/workbench/ledger.py:857-866 | After an accepted stop the task has failed whatever it was to resume in, no attempt goes on, its conversation has the wheel back unless its next queued task takes it, and it stays failed in every later run. |
| `LedgerOutcomes.StaleIsRefused` | app/app/application/workbench/ledger.py:259-309 | A move that expects a version is accepted only at that version. |
| `LedgerOutcomes.ResumesExactly` | app/app/application/workbench/ledger.py:346-388 | The task is queued again, and nothing else in the ledger changes, if and only if it waits for its machine and nothing else, is not cancelled, is its conversation's active task with the wheel at the advisor, and the machine is online. |
| `LedgerOutcomes.OpensExactly` | app/app/application/workbench/ledger.py:450-507 | An attempt opens if and only if none is open, a limit is above zero, and used, reserved and new reservation fit within it, an exact fit included; which refusal comes otherwise; and what the row is then. |
| `LedgerOutcomes.HandsOverExactly` | app/app/application/workbench/ledger.py:95-205 | A new request is taken if and only if its conversation has the wheel and no active task, belongs to a project and its machine is online; which refusal comes otherwise; the new task, and the wheel handed over exactly if nobody of the project is at work. |
| `LedgerService.Ledger.Enter` | app/app/infrastructure/workbench/repository.py:64-69 | Only the outermost transaction remembers what to roll back to. |
| `LedgerService.Ledger.Leave` | app/app/infrastructure/workbench/repository.py:69-77 | Only the outermost transaction rolls back, and then to exactly that. |
| `LedgerService.Ledger.CasTask` | app/app/infrastructure/workbench/repository.py:889-918 | A task row is written only over the expected version and only if the unique index allows; otherwise nothing changes. |
| `LedgerService.Ledger.CasSessionWheel` | app/app/infrastructure/workbench/repository.py:522-540 | A session row is written only over the expected version. |
| `LedgerService.Ledger.ConsumeInteraction` | app/app/infrastructure/workbench/repository.py:1080-1089 | Consumes a pending interaction that is in time, and nothing else. |
| `LedgerService.Ledger.HandOver` | app/app/application/workbench/ledger.py:62-205 | Statement by statement equal to the one-step handover; a refused one leaves no trace. |
| `LedgerService.Ledger.StartNextQueued` | app/app/application/workbench/ledger.py:223-256 | Equal to the one-step start of the next queued task. |
| `LedgerService.Ledger.Transition` | app/app/application/workbench/ledger.py:259-344 | Equal to the one-step state move, nested or not; a refused outermost one leaves no trace. |
| `LedgerService.Ledger.ResumeEnvironment` | app/app/application/workbench/ledger.py:346-388 | Equal to the one-step resume; in a ledger that keeps its invariant it answers yes if and only if the task waits for its machine alone and the machine is back. |
| `LedgerService.Ledger.RequestCancel` | app/app/application/workbench/ledger.py:390-436 | Equal to the one-step cancel; asks for an interrupt exactly when the task was running or waiting. |
| `LedgerService.Ledger.OpenAttempt` | app/app/application/workbench/ledger.py:439-528 | Equal to the one-step opening of an attempt. |
| `LedgerService.Ledger.BookCharge` | app/app/application/workbench/ledger.py:558-594 | The budget and journal statements of a charge add up to the one-step charge and release. |
| `LedgerService.Ledger.AttemptTransition` | app/app/application/workbench/ledger.py:530-624 | Equal to the one-step move of an attempt, the wait for budget included. |
| `LedgerService.Ledger.OpenInteraction` | app/app/application/workbench/ledger.py:679-743 | Equal to the one-step question. |
| `LedgerService.Ledger.RespondInteraction` | app/app/application/workbench/ledger.py:745-887 | Equal to the one-step answer, through the consuming update, both row checks and the nested state move. |
| `LedgerService.Ledger.Perform` | app/app/application/workbench/ledger.py:57-887 | Whatever is asked of the ledger object, it leaves the state of the run model. |
| `AdvisorWork.EveryRunKeepsWork` | app/app/application/workbench/advisor.py:155-610 | In every run of the driver, whatever crashes and others do: every step before the cursor is up to date, every step beyond it untried or really sent back, and the driver's local variables still say what the rows say. |
| `AdvisorWork.SettleKeepsWork` | app/app/application/workbench/advisor.py:306-515 | The end of a turn keeps that, on every branch. |
| `AdvisorWork.JudgeKeepsWork` | app/app/application/workbench/advisor.py:537-610 | So does going back to an earlier step. |
| `AdvisorRuns.NoStaleInputs` | app/app/application/workbench/advisor.py:171-205 | In every reachable state each step before the cursor has an accepted newest attempt, and every input it recorded is what the newest attempt of the providing step handed back. |
| `AdvisorRuns.SuccessIsWhole` | app/app/application/workbench/advisor.py:722-770 | A task that succeeded has every step accepted on one consistent set of versions. |
| `AdvisorRuns.NothingIsMissing` | app/app/application/workbench/advisor.py:179-193 | The missing-input branch is never taken with a pack whose steps read what earlier ones hand back. |
| `AdvisorRuns.TurnsAreBounded` | app/app/application/workbench/advisor.py:149-178 | Over a task's whole life at most n(1+B)+R turns, plus one per resume from WAITING and per restart after a crash. |
| `AdvisorBounds.NextKeeps` | app/app/application/workbench/advisor.py:543-610 | Every event keeps the account of turns behind that bound, together with the other invariants. |
| `AdvisorBounds.OneRework` | app/app/application/workbench/advisor.py:172-178 | One more failed attempt uses up one rework of that step and of no other. |
| `AdvisorBounds.OneBack` | app/app/application/workbench/advisor.py:546-577 | One more go-back uses up one of the step's go-backs. |
| `AdvisorService.TickDescends` | app/app/application/workbench/advisor.py:149-152 | Every action of the driver uses up a rework, a go-back or a step, or comes closer to the end of the current one. |
| `AdvisorRuns.MoneyHolds` | app/app/application/workbench/advisor.py:206-208 | A driven task keeps the ledger's row invariant with no discipline asked of anybody. |
| `AdvisorRuns.NoLimitNoBudgetStop` | app/app/application/workbench/advisor.py:410-422 | A task without a limit never waits for budget, in any run. |
| `AdvisorRestarts.RestartGoesOn` | app/app/application/workbench/advisor.py:98-223 | A task nobody drives that is ready to go on can get another attempt, while unfinished, if and only if no attempt of it was left open. |
| `AdvisorRestarts.RestartResumes` | app/app/application/workbench/advisor.py:155-223 | With no attempt open a restart opens the next attempt of the step at the cursor, on the newest inputs. |
| `AdvisorRestarts.CrashInATurnStrands` | app/app/application/workbench/advisor.py:302-310 | After a crash during a turn the attempt stays open and no other opens, until a cancel or an answer of the user ends the task: it is cancelled or failed, and never succeeds. |
| `AdvisorRestarts.OneLateTurn` | app/app/application/workbench/ledger.py:450-500 | A finished task takes one more turn at the most, and can take it if and only if its driver already stands past its look at the task, in a step with nothing to ask first. |
| `AdvisorRestarts.CancelledStillTakesATurn` | app/app/application/workbench/ledger.py:450-500 | For any pack whose first step asks nothing first there is a run that ends with the task cancelled and a turn still due. |
| `AdvisorRestarts.TakenOverGoesOn` | app/app/application/workbench/runner.py:1246-1275 | A waiting task whose machine is taken over can go on if and only if it does not wait for a tool approval, its row is as it was when it was asked, and a budget it is asked for can be read. |
| `AdvisorRestarts.ExpiredApprovalParks` | app/app/application/workbench/runner.py:1246-1275 | One that waits for a tool approval waits until the user cancels it: no answer, restart or other event moves it. |
| `AdvisorRestarts.ApprovalLeftBehind` | app/app/application/workbench/runner.py:1246-1275 | It does come to that, with any pack whose first step asks nothing first. |
| `AdvisorRuns.OnlyGoodWorkIsAccepted` | app/app/application/workbench/advisor.py:312-458 | A turn's work is taken over exactly if no cancel was asked, nobody stopped it, it came back whole, it passed, and its cost fits what is left of the limit. |
| `AdvisorRuns.DriveEndsAtRest` | app/app/application/workbench/advisor.py:98-152 | A drive that does not raise leaves the task finished or waiting for somebody. |
| `AdvisorTurns.AfterARefusedTurn` | app/app/application/workbench/advisor.py:506-610 | After a turn of a step that did not pass: while it has failed no more often than it may and there is data, the step is opened again and nobody is asked; then, if it may still send the work back, the step it names is opened and the go-back is on record; in every other case, and only then, the task waits for the user's decision on that step. Where the next reservation does not fit, the user is asked for budget. |
| `AdvisorTurns.AfterAnAcceptedTurn` | app/app/application/workbench/advisor.py:458-505 | After one that passed its output has the next version, the cursor the next step, and that step is opened, or after the last one the hand-back is filed and the task has succeeded. |
| `AdvisorTurns.AfterABrokenTurn` | app/app/application/workbench/advisor.py:312-409 | A turn called off ends the task as cancelled, one the user stopped asks the user, one whose machine was lost waits for the machine with its cost paid, one that broke ends the task as failed. |
| `AdvisorTurns.AfterAnOverspentTurn` | app/app/application/workbench/advisor.py:410-422 | One that cost more than was left is charged in full, and the user is asked for budget. |
| `AdvisorTurns.MachineComesBack` | app/app/application/workbench/advisor.py:98-223 | A task waiting for its machine is queued when it is back, and the next drive opens the step at the cursor, if the budget allows. |
| `AdvisorTurns.MachineIsAwaited` | app/app/application/workbench/advisor.py:98-223 | A machine makes a difference to a task exactly if it is online and the task waits for it and for nothing else. |
| `AdvisorTurns.FreshTaskStarts` | app/app/application/workbench/advisor.py:98-223 | A task just handed over comes to the first attempt of its first step, or is asked about budget; one no pack takes is rejected. |
| `AdvisorTurns.BeforeTheTurn` | app/app/application/workbench/advisor.py:237-310 | A step with unanswered questions withdraws its attempt unused and waits for the answers; any other begins its turn. |
| `AdvisorTurns.AnswersAreTaken` | app/app/application/workbench/advisor.py:237-271 | Once answered, the step is opened again and its turn begins. |
| `AdvisorTurns.CancelIsSeen` | app/app/application/workbench/advisor.py:160-166 | A cancel is seen at the head of the next step, and no attempt opens. |
| `AdvisorTurns.FailuresCount` | app/app/application/workbench/advisor.py:172-178 | The reworks of a step are its attempts that failed acceptance. |
| `AdvisorLink.NothingElseHappens` | app/app/application/workbench/ledger.py:57-887 | Whatever anybody else does anywhere in the ledger, the driver of a task sees it as one of the events its model allows. |
| `AdvisorLink.OwnTransactions` | app/app/application/workbench/advisor.py:98-770 | The driver's own transactions do to its row what its model says. |
| `Together.OneTaskInItsLedger` | app/app/application/workbench/ledger.py:57-887 | From a handover on, in any run of the ledger with the task's driver and everybody else in it: the ledger's joint invariant holds, and the task is in a state the driver's machine reaches, so all that is proved of those holds of it. |
| `Together.RunsAreSeen` | app/app/application/workbench/advisor.py:98-770 | A run of the whole ledger, seen from one task, is a run of its driver's state machine. |
| `Together.TogetherKeeps` | app/app/application/workbench/advisor.py:98-770 | Every step of driver or others keeps the ledger's and the driver's invariant together. |
| `Together.OwnIsDisciplined` | app/app/application/workbench/advisor.py:98-770 | The driver asks nothing of the ledger that its callers must not ask. |
| `Together.OnlyAQueuedTaskIsRefused` | app/app/application/workbench/ledger.py:259-309 | Of what the row allows, the unique index refuses the driver one thing only: to start a task that is still queued. |
| `AdvisorService.Advisor.Drive` | app/app/application/workbench/advisor.py:98-152 | The loop ends for any turns and any interference, at the first action after which nobody drives; what it did is the run of the model made of exactly those turns and writes, and unless it raised the task is finished or waits for somebody. |
| `AdvisorService.Advisor.Act` | app/app/application/workbench/advisor.py:155-770 | Each store action of the loop equals one step of the model. |
| `AdvisorService.Advisor.CheckState` | app/app/application/workbench/advisor.py:155-193 | The head of a step equals the model's. |
| `AdvisorService.Advisor.SettleTurn` | app/app/application/workbench/advisor.py:313-515 | The settling of a turn equals the model's, the artifact in one commit with the attempt. |
| `AdvisorService.Advisor.JudgeRefusal` | app/app/application/workbench/advisor.py:538-610 | The choice between rework, going back and asking equals the model's. |
| `AdvisorService.Advisor.CountFailures` | app/app/application/workbench/advisor.py:172-178 | Counts the attempts of a step that failed acceptance. |
| `AdvisorService.Advisor.CountBacks` | app/app/application/workbench/advisor.py:548-554 | Counts how often a step went back. |
| `AdvisorService.Advisor.ReadInputs` | app/app/application/workbench/advisor.py:179-194 | The newest version of every input, or none if one is missing. |
| `Packs.IndexOf` | app/app/domain/workbench/packs.py:161-165 | The step of that name, or none exactly when there is none. |
| `StepView.StepsView` | app/app/domain/workbench/step_view.py:289-328 | The rail is the status of every step, in order. |
| `StepView.BehindTheCursor` | app/app/domain/workbench/step_view.py:256-281 | In every reachable state every step before the cursor, and every step of a task that succeeded, is shown accepted; the fallback is never reached. |
| `StepView.AheadOfTheCursor` | app/app/domain/workbench/step_view.py:271-286 | Beyond the cursor a step is shown as gone back exactly if its newest attempt was not accepted, and then it went back itself; as to be redone exactly if that was accepted and the task is unfinished, and then a later step went back; as pending exactly if never tried. |
| `StepView.AtTheCursor` | app/app/domain/workbench/step_view.py:264-279 | The step at the cursor is never shown accepted; it shows waiting, redoing, and how a finished task ended, each exactly when that is so. |
| `DeliveryRuns.ExactlyOnce` | app/app/infrastructure/messaging/durable_tasks.py:86-226 | In every interleaving, with clocks that jump either way, a message's final effect is committed at most once, and has been exactly when its inbox row exists. |
| `DeliveryRuns.AggregatesAreFenced` | app/app/infrastructure/messaging/durable_tasks.py:107-192 | Effects on one topic and key are committed under epochs that never fall, and rise after every final one; equal resources mean equal topic and key. |
| `DeliveryRuns.ResourceIsOne` | app/app/infrastructure/messaging/durable_tasks.py:107-107 | A resource key names one topic and one aggregate key, because topics contain no colon. |
| `DeliveryRuns.EveryRunKeeps` | app/app/infrastructure/messaging/durable_tasks.py:86-226 | The joint invariant of leases, inbox and committed effects holds in every state of every run. |
| `DeliveryRuns.TakeKeeps` | app/app/infrastructure/messaging/durable_tasks.py:107-149 | Taking a resource keeps it: the second look at the inbox is what makes a new holder the first. |
| `DeliveryRuns.CommitKeeps` | app/app/infrastructure/messaging/durable_tasks.py:187-201 | A guarded commit keeps it, although the answer of the inbox insert is not looked at. |
| `DeliveryOutcomes.RunningLeaseKeepsOthersOut` | app/app/infrastructure/messaging/durable_tasks.py:107-131 | While a lease runs whoever else comes for its resource finds the row as it was and is turned away. |
| `DeliveryOutcomes.TakesExactly` | app/app/infrastructure/messaging/durable_tasks.py:107-149 | Whoever has arrived gets the resource if and only if nobody's lease on it runs and the message is unacknowledged: at the next epoch, with a new owner, for the time of the policy; of an acknowledged message the resource is left to others at once. |
| `DeliveryOutcomes.HeldWhileItRuns` | app/app/infrastructure/messaging/durable_tasks.py:57-149 | Over any run in which everybody who comes for the resource does so before the lease has run out, and its holder does not give it back, the lease stays the current one. |
| `DeliveryOutcomes.ArrivesExactly` | app/app/infrastructure/messaging/durable_tasks.py:86-106 | A message is started if and only if its topic is handled, it is due, unacknowledged and not under a dead letter. |
| `DeliveryOutcomes.CommitsExactly` | app/app/infrastructure/messaging/durable_tasks.py:187-201 | A session commits if and only if its lease runs, and the final commit acknowledges. |
| `DeliveryOutcomes.RenewsExactly` | app/app/infrastructure/messaging/durable_tasks.py:151-164 | A heartbeat sets the end of a running lease to the time of the policy from now, and touches nothing else. |
| `DeliveryOutcomes.ReleasesExactly` | app/app/infrastructure/messaging/durable_tasks.py:166-177 | A lease given back runs at no time, keeps its epoch, and no other row changes. |
| `DeliveryOutcomes.ClaimsExactly` | app/app/infrastructure/messaging/durable_delivery.py:40-74 | A publisher takes the oldest unlocked message that is handled, due, not buried and held by nobody whose lease still runs; where there is none nothing happens. |
| `DeliveryOutcomes.FinishesExactly` | app/app/infrastructure/messaging/durable_delivery.py:76-101 | A publication is recorded if and only if its publisher still holds the message; a failed one goes back with a delay, and under a dead letter once used up. |
| `DeliveryOutcomes.EnqueuesExactly` | app/app/infrastructure/repositories/outbox.py:15-52 | A well-formed request under a new key is one more message, offered exactly from its schedule on; anything else changes nothing. |
| `DeliveryOutcomes.ReplaysExactly` | app/app/infrastructure/messaging/durable_delivery.py:177-208 | A replay is of a buried message of a handled topic, and of no other. |
| `DeliveryOutcomes.ReconcilesExactly` | app/app/infrastructure/messaging/durable_delivery.py:114-175 | A message is newly buried if and only if its attempts are used up and it waits with nobody at it or is published, overdue, unacknowledged and nobody's work; it is put back if and only if it is so overdue with attempts left. |
| `DeliveryRecovery.NothingIsForgotten` | app/app/infrastructure/messaging/durable_delivery.py:114-175 | At all times a message somebody must acknowledge is acknowledged, under a dead letter, or one reconciliation that reaches it after its leases and delays, whenever its statements look, puts it under one or makes it claimable from then on. |
| `DeliveryRecovery.TimeComes` | app/app/infrastructure/messaging/durable_delivery.py:46-58 | Such a time comes for every message and stays. |
| `DeliveryRecovery.ReplayRevives` | app/app/infrastructure/messaging/durable_delivery.py:177-208 | A replay makes a dead-lettered message claimable with fresh attempts and keeps every acknowledgement. |
| `DeliveryRecovery.EnqueueOnce` | app/app/infrastructure/repositories/outbox.py:15-52 | The same intent under one key is one message however often and whenever it is enqueued; another intent under that key is refused. |
| `DeliveryRecovery.BackoffStopsShortOfItsCap` | app/app/infrastructure/messaging/durable_delivery.py:95-95 | The delay doubles with each attempt up to the eighth and stays at 256 seconds; the cap of 300 is never what limits it. |
| `DeliveryRecovery.GaugesAgree` | app/app/infrastructure/messaging/delivery_observation.py:82-129 | At one instant the reconcile gauge is the number of published messages one reconciliation would requeue or bury, and what is counted publishable is what may be claimed, less what is done or being worked on. |
| `DeliveryService.DurableTasks.EnqueueTask` | app/app/infrastructure/repositories/outbox.py:15-52 | Equal to the one-step enqueue. |
| `DeliveryService.DurableTasks.ClaimDelivery` | app/app/infrastructure/messaging/durable_delivery.py:40-74 | Claims the oldest due message nobody holds or has locked. |
| `DeliveryService.DurableTasks.FinishDelivery` | app/app/infrastructure/messaging/durable_delivery.py:76-101 | Records the outcome only under a running lease of the same owner, with backoff and dead letter. |
| `DeliveryService.DurableTasks.Reconcile` | app/app/infrastructure/messaging/durable_delivery.py:114-175 | The passes in place, each statement with its own clock reading and locks, equal the reconciliation of the model, and the answer is the number of messages put back. |
| `DeliveryService.DurableTasks.Replay` | app/app/infrastructure/messaging/durable_delivery.py:177-208 | Equal to the one-step replay. |
| `DeliveryService.DurableTasks.ClaimExecution` | app/app/infrastructure/messaging/durable_tasks.py:86-149 | Equal to the two-step claim of a resource. |
| `DeliveryService.DurableTasks.Renew` | app/app/infrastructure/messaging/durable_tasks.py:151-164 | Extends a lease that is still held, and no other. |
| `DeliveryService.DurableTasks.Release` | app/app/infrastructure/messaging/durable_tasks.py:166-177 | Leaves the epoch behind as a tombstone that no clock can revive. |
| `DeliveryService.DurableTasks.CommitGuarded` | app/app/infrastructure/messaging/durable_tasks.py:187-201 | Commits nothing without the lease; a final commit carries the acknowledgement. |
| `DeliveryService.DurableTasks.ClaimInboxOnce` | app/app/infrastructure/repositories/outbox.py:157-174 | Inserts the inbox row and says whether it is new. |
| `DeliveryService.DurableTasks.Consume` | app/app/infrastructure/messaging/durable_tasks.py:179-226 | With others, and its own heartbeat, at work between any two of its transactions: what happened is one run of the fleet, it has the lease exactly if the fleet left it one to take, reports success exactly if its own final effect was committed, behind every commit the handler made on its way, each once, and gives its lease back. Undisturbed and in time it succeeds unless the handler fails. |
| `DeliveryService.DurableTasks.Execute` | app/app/infrastructure/messaging/durable_tasks.py:197-205 | Under its lease the handler commits as often as it does on its way and then once for good, in that order, and nothing else, or stops at the first refusal or where it fails. |
| `DeliveryWorkers.RunSpares` | app/app/infrastructure/messaging/durable_tasks.py:57-61 | Whatever others do, a consumer's place, what was acknowledged, and whether its own final effect was committed stay as they are. |
| `DeliveryService.DurableTasks.Pump` | app/app/tasks/durable_delivery.py:18-35 | Equal to a reconciliation followed by the turns of the model. |
| `DeliveryPump.TurnIsOnePublication` | app/app/tasks/durable_delivery.py:21-34 | A turn publishes the oldest message that may be claimed and touches no other: it ends published, or delayed and buried exactly when its attempts are used up, or, the lease having run out, unrecorded. |
| `DeliveryPump.PumpLeaves` | app/app/tasks/durable_delivery.py:18-35 | After a pump every message is as it was, published, delayed, buried exactly when its failed attempts are used up, or still held; what is published is not published again. |
| `DeliveryPump.WholePumpLeaves` | app/app/tasks/durable_delivery.py:18-35 | From the very start of a pump, its reconciliation included, a message is newly buried only with its attempts used up, and one already published is touched only if it was put back. |
| `DeliveryPump.PumpCounts` | app/app/tasks/durable_delivery.py:18-35 | The pump stops early only when nothing may be claimed, and counts exactly the attempts it adds. |
| `Pricing.SplitIsExact` | app/app/domain/workbench/pricing.py:123-139 | The split of a report loses nothing, counts nothing twice, and takes all of a report with only a total as input. |
| `Pricing.Telescopes` | app/app/domain/workbench/pricing.py:157-170 | After every report what is recorded is the last total less the first plus the first call (and any calls that came without a total), if and only if no part of the split total ever shrinks. |
| `Pricing.GapsAreMadeUp` | app/app/domain/workbench/pricing.py:157-170 | For totals that are sums of calls whose numbers fit together, whatever reports are lost or repeated, everything used from the first reported call on is recorded once. |
| `Pricing.RepeatAddsNothing` | app/app/domain/workbench/pricing.py:157-170 | A repeated report adds nothing. |
| `Pricing.RawGrowthIsNotEnough` | app/app/domain/workbench/pricing.py:83-93 | A call that claims more from the cache than it had input makes the split total shrink, and the sum wrong, although every raw number grows. |
| `Pricing.RestartRecalls` | app/app/application/workbench/runner.py:223-238 | With growing totals, a restart finds in the journal the total the process knew if and only if it knew none or the newest entry of the thread carries one. |
| `Pricing.FirstCallDecides` | app/app/application/workbench/runner.py:223-238 | Where every report carries a total, that is so if and only if the first call used something or the total has moved since. |
| `Pricing.RestartKeepsTheSum` | app/app/application/workbench/runner.py:223-276 | Under that condition the sum across a restart is the sum without one. |
| `Pricing.EachPartItsPrice` | app/app/domain/workbench/pricing.py:177-182 | Each part of a usage is charged at its own price. |
| `Pricing.RoundIsNear` | app/app/domain/workbench/pricing.py:173-183 | Rounding is to the nearest micro-unit, ties to the even one. |
| `Pricing.ExactAdds` | app/app/domain/workbench/pricing.py:75-81 | Before rounding, the cost of a sum of usages is the sum of their costs. |
| `Pricing.SandboxLink.Priced` | app/app/application/workbench/runner.py:240-276 | One notification updates its own thread and turn and no other, and is dropped exactly when it brings nothing new. |
| `Pricing.SandboxLink.RecallTotal` | app/app/application/workbench/runner.py:223-238 | Takes the total of the thread's newest journal entry, once. |
| `Pricing.RoundingIsBounded` | app/app/domain/workbench/pricing.py:173-183 | For n calls at one price the rounded costs add up to the rounded cost of the sum within (n+1)/2 micro-units. |
| `ConversationUsage.Usages` | app/app/domain/workbench/pricing.py:252-312 | Every turn of the events appears once, in the order turns first appear, with its own calls, tokens and cost, and the turns add up to the whole. |
| `ConversationUsage.TurnAddsUp` | app/app/domain/workbench/pricing.py:252-312 | A turn has as many calls as events, and has used and cost what they did. |
| `ConversationUsage.UnknownWhenUnpriced` | app/app/domain/workbench/pricing.py:289-296 | A cost is unknown exactly when some call was unpriced, of the whole and of each turn. |
| `ToolPolicy.MergePolicy` | app/app/domain/workbench/tool_policy.py:78-103 | The merge in place is the merge of the model: any relaxation is refused, prefixes add up. |
| `ToolPolicy.MergesExactly` | app/app/domain/workbench/tool_policy.py:78-103 | A step is refused exactly if it would loosen a tier, let questions in or ask more of them; otherwise what it gives is taken and what it does not give stays. |
| `ToolPolicy.DecidesExactly` | app/app/domain/workbench/tool_policy.py:142-156 | Just after a refusal everything is asked about; otherwise a call is denied exactly if its category is, and let through exactly if its category is or it is a command asked about that starts with a listed prefix. |
| `ToolPolicy.PlatformFloor` | app/app/domain/workbench/tool_policy.py:41-63 | The platform allows writing in the project, asks about commands, and denies everything outside and the network. |
| `ToolPolicy.StepLoosensOnlyByPrefix` | app/app/domain/workbench/tool_policy.py:142-156 | A step makes a decision looser exactly for commands that are asked about, that the pack's prefixes do not let through and that start with a prefix the step added. |
| `ToolPolicy.NeverBelowThePlatform` | app/app/domain/workbench/knowbots.py:65-76 | For an accepted manifest no decision in any step is looser than the platform's. |
| `ToolPolicy.LooserThanPlatform` | app/app/domain/workbench/knowbots.py:65-76 | Finds no problem exactly when no tier, question limit or prefix goes below the platform. |
| `ToolPolicy.PackFromManifest` | app/app/domain/workbench/knowbots.py:79-132 | Hands out the pack exactly for an acceptable manifest of the version asked for, and names a problem for any other. |
| `ToolPolicy.AcceptedExactly` | app/app/domain/workbench/knowbots.py:65-132 | A manifest is accepted if and only if its words and versions are right, no call is treated more loosely than by the platform, there are no prefixes, and every step keeps to its pack and to the user's own two tools. |
| `ToolPolicy.GrantCoversItsLikes` | app/app/domain/workbench/tool_policy.py:159-176 | What the user allowed for the task covers the request they saw and of commands exactly those with the same program and first argument; an empty command is never covered. |
| `Paths.CleanRelativePath` | app/app/domain/workbench/projects.py:54-85 | The checks in the loop accept exactly the clean paths of the model. |
| `Paths.CleanedIs` | app/app/domain/workbench/projects.py:64-85 | What cleaning returns is relative, has no outer blanks or slashes, and only proper folder names. |
| `Paths.SegmentOkExactly` | app/app/domain/workbench/projects.py:64-85 | A proper folder name spelled out: neither nothing, . nor .., short enough, no refused character, no blank at its ends, no dot at its end, and not the name of a device in any case, alone or before a dot. |
| `Paths.AcceptedExactly` | app/app/domain/workbench/projects.py:64-85 | Text is accepted exactly if it is empty, a dot, or not too long, without a tilde in front and made of proper folder names: the other tests for absolute paths refuse nothing more. |
| `Paths.WrittenItsOwnWay` | app/app/domain/workbench/projects.py:88-96 | The directory of a project is its workspace without the separators at its end, one separator and the project's path written with it: backslashes under a Windows workspace. |
| `Paths.ProperPathsAreClean` | app/app/domain/workbench/projects.py:64-85 | Whatever is made of proper folder names, not too long and not absolute, is accepted unchanged. |
| `Paths.CleanIsIdempotent` | app/app/domain/workbench/projects.py:54-85 | Cleaning a cleaned path changes nothing. |
| `Paths.RoundTrip` | app/app/domain/workbench/projects.py:88-124 | Splitting the directory of a project under its workspace gives both back if and only if the project is the workspace itself, or the workspace is empty or more than separators. |
| `Paths.SplitUnderRoots` | app/app/domain/workbench/projects.py:97-124 | The loop finds what the model finds. |
| `Workspaces.LongestInAnyOrder` | app/app/domain/workbench/projects.py:97-124 | The longest of the workspaces around a directory is found in whatever order they come if and only if a longest one is weighed in full, or no longest one can be misjudged for another. |
| `Workspaces.FoundContains` | app/app/domain/workbench/projects.py:103-124 | What is found lies around the directory, with its path under it, and something is found if anything does. |
| `Workspaces.UnderExactly` | app/app/domain/workbench/projects.py:103-121 | A directory lies under a workspace if and only if it is the workspace or goes on behind it with a separator, on Windows up to the case of letters. |
| `Workspaces.CaseMakesNoDifference` | app/app/domain/workbench/projects.py:106-112 | For a Windows workspace neither its case nor that of its part of the directory makes a difference. |
| `Workspaces.OnlySlashesAreMisjudged` | app/app/domain/workbench/projects.py:105-123 | Workspaces of nothing but slashes are misjudged, and the shorter is found. |
| `Truth.TextOrderExactly` | app/eval/truth.py:168-172 | Text is ordered by the first character that differs, a beginning before what goes on. |
| `Truth.CompareResults` | app/eval/truth.py:183-206 | The nested loops decide the model's comparison. |
| `Truth.VerdictIgnoresOrder` | app/eval/truth.py:152-206 | The verdict does not depend on the row order of either side if the keys identify the rows or no key is given, and with distinct not on repeated rows. |
| `Truth.OrderDoesNotMatter` | app/eval/truth.py:159-173 | Results with the same rows have one canonical form. |
| `Truth.VerdictIsFair` | app/eval/truth.py:176-206 | A result is the same as itself, and the two sides can change places. |
| `TruthOrder.OrderMattersExactly` | app/eval/truth.py:152-206 | A result is the same as every reordering of itself (and with distinct every repetition), at any tolerance, if and only if its rows that share a key agree within the comparison. |
| `TruthOrder.ToldApart` | app/eval/truth.py:152-206 | Two results are told apart whenever a row of one has, in a column that counts, a value no row of the other has the same of. |
| `TruthOrder.SameHasAll` | app/eval/truth.py:152-206 | Results are the same only if both have every column that counts and as many rows, or as many different ones. |
| `TruthKeys.PairedByKey` | app/eval/truth.py:152-206 | With keys that identify the rows, and the same keys on both sides, results are the same if and only if any two rows with one key agree in every column that counts. |
| `TruthOrder.SameValueExactly` | app/eval/truth.py:176-180 | Texts are the same letter by letter, numbers within the tolerance, a truth value as its number, nothing as nothing alone. |
| `TruthOrder.SortIsStable` | app/eval/truth.py:170-172 | Sorting leaves the rows of one key in the order they came. |

## Left out

- Handovers, locks and isolation below the transaction: steps are atomic, `FOR UPDATE` and `SKIP LOCKED` appear
  only as the set of rows a claim or a reconciliation passes over.
- AdvisorService.Advisor.Drive: models one driver; two drivers of one task are excluded by the runner, not here.
- LedgerRuns.EveryRunKeeps: the order of tasks by creation time is their order of insertion, so ties and clock
  corrections between handovers are not modelled.
- Overspend.OverspendIsOneAttempt: amounts are real numbers; the journal column's six decimals and the decimal
  context's 28 digits are not modelled.
- Pricing.RoundingIsBounded: exact sums of reals, rounded once per call; the decimal context is not modelled.
- DeliveryRuns.ExactlyOnce: a handler is any number of guarded commits; what it writes is opaque, and effects
  outside the database are not covered.
- DeliveryService.DurableTasks.Consume: a process that dies in the middle is a crash of `DeliveryRuns`, not a way
  out of the method.
- ToolPolicy.PackFromManifest: the shape of a pack is its type; one that does not have it is refused as malformed.
- DeliveryRecovery.NothingIsForgotten: topics without a consumer need no acknowledgement and are not included;
  malformed schedule headers are not modelled.
- Paths.RoundTrip: letters fold as in ASCII; text that changes length when lowered is not modelled.
- Truth.VerdictIgnoresOrder: how a value is written is a parameter that must tell different values apart;
  values that cannot be written, and numbers that are not numbers, are not modelled.
- Interactions of a conversation without a task, and the session columns besides wheel, active task and project.
- Tokens, owners and subject digests: whether they match is an input.
- Event texts, threads, artifacts' contents and files; an artifact is its name and version.
- The check that a finished draft is on the user's disk: it only turns an accepted turn into a refused one.
- Display views besides the step rail, paging, HTTP routes, settings, migrations as code.
- The connection to the model's server, approvals in flight as futures, provisioning, identity and leases of runners.
- The fingerprint of a result and the reasons given for a difference.
