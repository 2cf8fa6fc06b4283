# A verified model of trilha-runner

trilha-runner runs the tasks of a Trilha project: it claims work, gives each run a git worktree and a
branch, drives an agent through attempts and checks, and delivers the result to the cloud. This
project models the parts of it that are protocols, state machines or exact text transformations, and
proves what they keep. git, the file system, the clock, the agent, the drivers, deployed programs and
the cloud are environments: parameters or steps that may answer anything, in any order, and fail at
any point, unless a lemma names an assumption.

| module | what it models | main results |
|---|---|---|
| `AttemptLoop`, `RunTerms`, `Runner`, `Verification`, `RetryPolicy` | one run of a task, from admission to report | exactly when a run goes on, passes, and with which failure class; status agreement; every attempt, driver call, commit, check and record of a run, exactly; tokens and cost conserved; an acknowledged question ends the run, in the agent's words; read-only runs move nothing; all of it restated in the answers of the driver, git, the store and the checks |
| `Worker`, `ResultOutbox` | the worker's main loop, goroutines and channel, the outbox on disk, the cloud, crashes and restarts | no written result is lost; the cloud holds only what was sent; sends never block; leftovers first, nothing overwritten; recovery is always possible and repeats harmlessly |
| `AgentLink`, `Reporter` | the socket between agent and run; the rate-limited state reports | acknowledged means handled; Close drains; the report rate bound that holds, and exactly where the documented one fails |
| `Branches`, `Worktrees`, `Variants` | refs, worktrees and proofs under Open, Commit, Clean and the doctor | no work lost over any sequence of steps; least variant suffix; runs of different variants never share a branch |
| `Deployer` | the deployment executor | execution is a prefix of the one plan; the migration gate; rollback only after the whole plan, a downgrade only of a migration that ran; what a rollback's programs are handed |
| `Redact`, `Reviews`, `HookCommand` | redaction, the escaped review block, the shell-quoted hook | exact condition under which a secret never survives; two print/parse round trips |
| `Queue` | the local dependency graph | least startable task; dependencies start first, over traces and along chains; stuck exactly on cycles |

`Wrappers`, `Text` and `Tasks` hold the option type, string search, trimming and case folding with what they mean, and the task statuses. An object the
source updates in place is a class with that state (`AgentLink.AgentSession`, `Reporter.StateReporter`,
`AttemptLoop.Loop`, `ResultOutbox.Outbox`, `Worktrees.Manager`), its methods proved against a
specification. Interleavings (the socket server's goroutines, the worker, git under several actors)
are state machines on values whose traces are arbitrary lists of steps. A `char` stands for one byte;
token costs are reals.

## Where the code and its documentation differ

The code is modelled as it is; each difference is a lemma or a contract.

- runner/runner.go:190 says that a task which is not ready or is blocked is left where it was. A
  preparing move (an orphan, an answered question, a repair) to ready is made before the dependencies
  are looked at and is not undone. `Runner.Admit` states exactly when the promise holds,
  `Runner.AnOrphanIsNotLeftWhereItWas` is an instance.
- runner/agent.go:145-148 says that a state is reported at most once per interval. The immediate report
  does not cancel a pending timer, so a late timer may report again at once:
  `Reporter.TwoReportsInOneInterval` is such a run, `Reporter.TooSoonExactly` the exact condition on the
  reporter's state, and
  `Reporter.PromptTimersSpaceReports` the documented bound when timers are prompt.
- The repository's README.md:183-186 and worktree/doctor.go:15-18 say that uncommitted work is not removed without force.
  When `git status` cannot answer in the worktree, it counts as clean: `Branches.UncommittedWorkIsPruned`
  gives the exact condition, `Branches.AnUnreadableOrphanLosesItsWork` an instance.
- The repository's README.md:184-185 says merged into `origin/<default>`. Where that ref is not there, another base is taken,
  a local branch among them. `Branches.DeletedIsMergedIntoOrigin`: the promise holds of what is deleted if
  and only if that ref is there, for the branch the doctor was named, or origin's HEAD, or main; `Branches.MergedOnlyHereIsDeleted` is an instance without it.
- internal/redact/redact.go:26-28 says that every known secret is replaced. One that overlaps the mask can be rebuilt
  by a later replacement: `Redact.RedactExactly` and `Redact.ScanExactly` are the exact conditions.
- deployer/deployer.go:177 sets the action a rollback's programs see, but secrets come later in the
  environment and the last entry of a name wins: `Deployer.RollbackSeesItsAction` is the exact condition on the
  order, `Deployer.ASecretOverridesTheAction` a family that fails it, `Deployer.AnOrderThatDeploys` one of it.

## Model

| member | source | states |
|---|---|---|
| `AttemptLoop.Loop.Run` | runner/attempt_loop.go:76-196 | for every environment: the attempt the run ends in is the first one that does not continue; it passes, and has its failure class, exactly as that attempt decides; what is written of every attempt, its cost, the driver's calls, commits, checks and evidence are exactly the specified ones; a question it needs an answer to is the last non-blank ask heard, trimmed, in its own words exactly when nothing in them looks like a secret; one driver call an attempt, and one more if and only if a resume failed without a question; an error is returned exactly when it neither passed nor needs input; a missing program ends it before any driver call; "attempts exhausted" is unreachable |
| `AttemptLoop.Loop.Attempts` | runner/attempt_loop.go:89-195 | the loop: the last attempt is the first that does not continue |
| `AttemptLoop.OneOutcome` | runner/attempt_loop.go:89-195 | every run has exactly one last attempt, at most the bound, and passes if and only if some attempt that is reached passes |
| `AttemptLoop.TotalsAreConserved` | runner/evidence.go:16-32 | tokens and cost equal the sums over the result's attempts, and exceed them by exactly the last driver's own output if and only if that attempt did not enter the result |
| `AttemptLoop.SumIsCharged` | runner/attempt_loop.go:198-210 | the attempts' sum is what their own driver calls reported, a failed resume's output in neither |
| `AttemptLoop.CallsAreCounted` | runner/attempt_loop.go:55-74 | one driver call an attempt, one more if and only if a resume failed without a question, none without the program |
| `AttemptLoop.AcknowledgedAskEndsTheRun` | internal/agentlink/agentlink.go:100-107 | from the socket to the result: an ask acknowledged and taken makes that attempt the last, without checks, and the run needs input unless capturing, committing, recording or moving failed |
| `AttemptLoop.MessagesAre` | runner/attempt_loop.go:55-104 | where an ask heard by an attempt can have come from |
| `AttemptLoop.Loop.Turn` | runner/attempt_loop.go:89-193 | one iteration: it starts and ends between attempts with the task running, or ends the run with result and stored status agreeing |
| `AttemptLoop.Loop.LoseOutput` | runner/attempt_loop.go:95-97 | an output that cannot be written is in the totals, its attempt not in the result |
| `AttemptLoop.Loop.AskAgent` | runner/attempt_loop.go:90-97 | after the driver, a question is waiting exactly when one was handled before it returned; the totals grew by what the chosen answer reports; nothing else of the attempt has happened |
| `AttemptLoop.Loop.Conclude` | runner/attempt_loop.go:98-145 | a non-blank ask makes the attempt of a writable run the last, with no check run |
| `AttemptLoop.Loop.Settle` | runner/attempt_loop.go:105-193 | what a captured output comes to: exactly when another attempt follows, when the run passes, and the failure class |
| `AttemptLoop.Loop.Execute` | runner/attempt_loop.go:55-74 | exactly the calls of the attempt: one, after a failed resume without a question two; the answer is the resumed session's unless it fell back |
| `AttemptLoop.Loop.Hear` | runner/agent.go:39-66 | however many messages, what waits is what the last non-blank ask among them said, kept only if nothing in it looks like a secret, or what waited before when there is none |
| `AttemptLoop.Loop.CaptureOutput` | runner/evidence.go:16-32 | the running totals grow by this output, whether or not the log file is written |
| `AttemptLoop.Loop.Append` | runner/attempt_loop.go:198-210 | an attempt enters with its number, its class and its own output's cost, after exactly its commit and checks |
| `AttemptLoop.Loop.Recover` | runner/attempt_loop.go:124-126 | the last attempt becomes one that another may follow; all of them stay what they were |
| `AttemptLoop.Loop.CommitWork` | worktree/worktree.go:112-128 | one commit is tried; the result's commit is the new one, or stays when there was nothing to commit |
| `AttemptLoop.Loop.RecordRun` | runner/verification.go:43-48 | the evidence of the run is what every attempt so far left, in order |
| `AttemptLoop.Loop.AskForInput` | runner/attempt_loop.go:228-253 | needs input with the task blocked, and with the question it was given, unless commit, record or move failed; the commit is the new one or stays; never passed, no check |
| `AttemptLoop.Loop.Await` | runner/attempt_loop.go:236-253 | a recorded question needs input, and is the result's, exactly when the task can be blocked |
| `AttemptLoop.Loop.AfterFailure` | runner/attempt_loop.go:105-141 | another attempt exactly after a recorded transient failure with attempts left and an unbroken wait |
| `AttemptLoop.Loop.EndFailed` | runner/attempt_loop.go:133-141 | the class of the failure; failed in the result only if the store took the move |
| `AttemptLoop.Loop.FinishReadOnly` | runner/work.go:152-207 | passed exactly when clean, HEAD and the reviewed ref unmoved, and recorded; any change is a policy failure |
| `AttemptLoop.Loop.Verify` | runner/verification.go:13-49 | commit, move, checks and record all succeed exactly when it returns no error; then passed is what the evidence says |
| `AttemptLoop.Loop.CheckAndRecord` | runner/verification.go:28-49 | checks, evidence, attempt and run record: the attempt's class is none, a missing program, or checks failed |
| `AttemptLoop.Loop.AfterVerify` | runner/attempt_loop.go:148-193 | review exactly after passing checks and an accepted move; another attempt exactly for checks that ran and failed |
| `AttemptLoop.Loop.FailChecks` | runner/attempt_loop.go:164-181 | a missing program or the last attempt ends the run, with its class |
| `AttemptLoop.Loop.Correct` | runner/attempt_loop.go:182-193 | a corrective attempt starts only from running, through ready |
| `AttemptLoop.Loop.FailEnvironment` | runner/attempt_loop.go:259-273 | one failed attempt of the environment class and no driver call |
| `AttemptLoop.Loop.Fail` | runner/runner.go:251-273 | the status becomes failed exactly where the task does, and always in a read-only run; nothing else of the result changes |
| `AttemptLoop.Loop.Move` | runner/attempt_loop.go:149-187 | only the moves of the task's graph, in the order they were made |
| `AttemptLoop.Loop.FailSetup` | runner/runner.go:275-320 | a run that cannot start: no attempt, no driver call, the policy class exactly when the runner's own rules refused it |
| `RunTerms.WritablePasses` | runner/attempt_loop.go:94-162 | a writable attempt passes exactly when the output is captured, nothing is asked, the driver succeeds, the commit does not fail, the task may move to verify and to review, there is a check, all checks and metrics pass, and everything is recorded |
| `RunTerms.ReadOnlyPasses` | runner/work.go:152-207 | a read-only attempt passes exactly when nothing changed, HEAD and the branch are where it started, and that is recorded |
| `RunTerms.AnotherFollows` | runner/attempt_loop.go:105-193 | another attempt follows exactly after a recorded transient failure, or after checks that ran, were recorded and failed with every program there, with an attempt left, the moves taken and the wait over |
| `RunTerms.ClassReported` | runner/attempt_loop.go:105-179 | the class of a run for each way it ends |
| `RunTerms.ClassRecorded` | runner/verification.go:33-42 | the class an attempt is recorded with |
| `RunTerms.StepsTaken` | runner/verification.go:13-49 | which attempts commit, which run checks, which enter the result |
| `RunTerms.EvidenceLeft` | runner/verification.go:28-48 | the evidence an attempt leaves: what its checks recorded, then a run record that says passed exactly when they are all well, or a read-only run changed nothing |
| `RunTerms.ChargeReports` | runner/attempt_loop.go:198-209 | an attempt is charged what the answer that counts reports, number by number |
| `RunTerms.CallsMade` | runner/attempt_loop.go:55-74 | the driver's calls of each attempt, in order |
| `RunTerms.CommitAnswered` | runner/verification.go:14-23 | the commit answered is that of the last attempt that made one, or where a read-only run started |
| `RunTerms.HeardInOrder` | runner/agent.go:114-123 | what an attempt hears, in order: late messages of the one before, of the resumed session, of the fresh one |
| `RunTerms.EveryEnd` | runner/attempt_loop.go:105-195 | every ended run: result and stored status agree, moves are those of the task's graph, a read-only run moves, commits and checks nothing, earlier attempts were recovered from |
| `Runner.Run` | runner/runner.go:192-407 | from admission to report: admitted exactly as `Runner.Admit` says, set up from the claim with failures judged by `RetryPolicy.Classify`; dependencies done before any writable run, read-only runs leave the task where it is; a run refused for changing something publishes nothing, every other one its replies and artifacts, a review its verdict and findings, a hunt its findings with area and style |
| `Runner.Admit` | runner/runner.go:203-223 | admitted exactly when everything loads, the task is or becomes ready, no dependency holds it and the move is taken; else it stays where it was if and only if no preparing move was made |
| `Runner.AnOrphanIsNotLeftWhereItWas` | runner/runner.go:203-223 | an orphan with an unfinished dependency is not run and is left ready |
| `Runner.Next` | runner/runner.go:428-440 | the queue and the run's own check agree on an unchanged store: the task answered is refused only when something cannot be loaded or moved |
| `Runner.AttachReport` | runner/work.go:213-254 | a run refused by policy publishes nothing; a review always has a verdict; a hunt's findings carry its area and style |
| `Runner.MaxAttempts` | runner/runner.go:384-393 | the operator's number, else the task's, else the manifest's, else three |
| `Verification.RunVerification` | runner/eval.go:31-71 | passed exactly when there was a check and every check and metric record passed; the evidence is each check followed by its metrics |
| `Verification.RecordEvals` | runner/eval.go:54-67 | metrics recorded one by one, passed exactly when all are |
| `Verification.MissingTool` | runner/verification.go:55-65 | whether a failed check lacked its program |
| `Verification.ChecksAreRecorded` | runner/eval.go:44-51 | the evidence holds a check exactly when there was one |
| `Verification.VerificationTells` | runner/eval.go:31-71 | in the checks' own terms: passed exactly when there is a check and all checks and metrics passed; a program is missing exactly when a check failed for want of it |
| `Verification.CheckIsTold` | runner/verification.go:55-65 | a check passes by its own exit, and lacks its program by exit 127 or its note |
| `Verification.NotInstalledWords` | runner/retry_policy.go:22-25 | the four wordings of a program that is not installed, and no others |
| `RetryPolicy.Classify` | runner/retry_policy.go:14-35 | retryable exactly for a timed-out call, or an overloaded provider that does not turn the caller away, and never for policy, cancellation or a missing program; when each class is given |
| `RetryPolicy.SpentBy` | runner/evidence.go:16-32 | each counter is the number reported under its name if that is positive, the cost the one reported or the estimate for the total |
| `RetryPolicy.TurnsAwayWords` | runner/retry_policy.go:28-29 | the words of a provider that turns the caller away, whatever their case |
| `RetryPolicy.OverloadedWords` | runner/retry_policy.go:30-31 | the words of an overloaded one |
| `RetryPolicy.TimesOutWords` | runner/retry_policy.go:26-27 | the words of a call that timed out |
| `Worker.NothingIsLost` | cmd/trilha-runner/outbox.go:49-149 | over every interleaving of crashes, restarts and lost answers: an entry that reached result.json is pending whole, or the cloud holds a result for its run, or answered it with a status outside 200..299, below 500 and not 408, 409 or 429 |
| `Worker.FlushedBeforeClaiming` | cmd/trilha-runner/worker.go:115-139 | when the main loop can claim, the outbox is empty and no taken outcome is undelivered |
| `Worker.WritesNeverOverwrite` | cmd/trilha-runner/outbox.go:49-66 | a rename never replaces a pending entry, and what it puts there is whole and names its own run |
| `Worker.PendingIsWhole` | cmd/trilha-runner/outbox.go:152-170 | a flush finds no file cut short and no unsafe run id |
| `Worker.RunningIsInFlight` | cmd/trilha-runner/worker.go:123-150 | `running` equals executing goroutines plus buffered outcomes and never exceeds the capacity |
| `Worker.TotalCounts` | cmd/trilha-runner/worker.go:123-150 | what `running` counts, claim by claim |
| `Worker.AClaimCanBeServed` | cmd/trilha-runner/worker.go:115-218 | progress: from every reachable state with room, any claim can be run, written down, delivered and cleared, and then the cloud holds its result |
| `Worker.SendNeverBlocks` | cmd/trilha-runner/worker.go:122-150 | a goroutine with an outcome can always send it |
| `Worker.OneWriteOneDelivery` | cmd/trilha-runner/worker.go:197-218 | each claim is written at most once and delivered at most once, after its goroutine is done |
| `Worker.StoredNeverChanges` | queue/remote.go:142-156 | with a cloud keyed by run and attempt, no sequence of sends changes a stored result |
| `Worker.StoredWasPosted` | queue/remote.go:142-156 | over every interleaving the cloud holds only what the worker sent under that run and attempt, and the key of everything it answered with a success |
| `Worker.ResendingIsHarmless` | cmd/trilha-runner/outbox.go:152-170 | a worker that died after the cloud took everything pending: however many processes start, send all of it again and die, what the cloud stores does not change |
| `Worker.DeadWorkersRecover` | cmd/trilha-runner/outbox.go:152-170 | from every reachable crash some run of a new process empties the outbox, and everything written is then with the cloud or refused |
| `Worker.DeliverIsARun` | cmd/trilha-runner/outbox.go:117-149 | any number of tries leave the outbox as `ResultOutbox.Outbox.Deliver` does |
| `Worker.WriteIsARun` | cmd/trilha-runner/outbox.go:49-66 | the steps of a write leave the outbox as `ResultOutbox.Outbox.Write` does |
| `Worker.CountedNext` | cmd/trilha-runner/worker.go:139-218 | every step keeps the count |
| `Worker.LivesNext` | cmd/trilha-runner/worker.go:139-218 | every step keeps each claim's life in order |
| `Worker.DiskNext` | cmd/trilha-runner/outbox.go:49-170 | every step keeps the outbox what the process still has to deliver |
| `Worker.SafeNext` | cmd/trilha-runner/outbox.go:117-149 | every step keeps each written entry pending, held or refused |
| `Worker.Capacity` | cmd/trilha-runner/worker.go:102-108 | at least one, and one when it runs once |
| `ResultOutbox.Outbox.Deliver` | cmd/trilha-runner/outbox.go:117-149 | in status codes: the file is removed exactly on 2xx or 409, set aside exactly on a status outside 200..299, below 500 and not 408, 409 or 429, and left where it was when no answer settles it; the first wait is the base, each later one doubled up to 30 s |
| `ResultOutbox.Outbox.Write` | cmd/trilha-runner/outbox.go:49-66 | only the run's own path changes, and holds the whole entry; nothing without a place for it |
| `ResultOutbox.Outbox.Flush` | cmd/trilha-runner/outbox.go:152-170 | a completed flush leaves none of the listed files; a stopped one leaves the rest as it was; each file that went was no result, or refused, and set aside, or the cloud has it |
| `ResultOutbox.PendingOutbox` | cmd/trilha-runner/outbox.go:70-87 | every result under the roots once, and nothing else, oldest first |
| `ResultOutbox.Settling` | cmd/trilha-runner/outbox.go:122-137 | the position of the first answer that is not to be retried |
| `ResultOutbox.JudgedByCode` | cmd/trilha-runner/outbox.go:122-137 | which statuses clear a result and which set it aside |
| `ResultOutbox.SafeRunIsAName` | cmd/trilha-runner/outbox.go:32-45 | which run ids name a directory: 1 to 64 letters, digits, dots, underscores and dashes, a letter or digit first |
| `ResultOutbox.BackoffDoubles` | cmd/trilha-runner/outbox.go:145-147 | the closed form of the delay is the doubled, bounded one |
| `AgentLink.AcknowledgedIsHandled` | internal/agentlink/agentlink.go:168-190 | each letter counted is handled at most once and acknowledged at most once, after it was handled; the first 10000 messages are counted, and no others |
| `AgentLink.AcknowledgedAskIsHeard` | internal/agentlink/agentlink.go:100-107 | the ask of an acknowledged letter is in the question that waits, or in one the run took at the first take after it was handled |
| `AgentLink.NothingAfterClose` | internal/agentlink/agentlink.go:192-205 | after the first Close returns every letter counted is handled, and none is counted, handled or acknowledged any more |
| `AgentLink.InFlightIsHandled` | internal/agentlink/agentlink.go:192-205 | a letter counted before Close returns is handled, exactly once, by then |
| `AgentLink.CloseDrains` | internal/agentlink/agentlink.go:192-205 | a Close that waits can always come to its end |
| `AgentLink.AMessageCanBeServed` | internal/agentlink/agentlink.go:168-190 | in every reachable state a message on a connection that reads becomes the next letter, is handled and acknowledged, if fewer than 10000 arrived before; else the connection ends |
| `AgentLink.CountsNext` | internal/agentlink/agentlink.go:153-190 | the wait group counts the accept loop and the live connections at every step |
| `AgentLink.LettersNext` | internal/agentlink/agentlink.go:168-190 | every step keeps each letter in one goroutine's hands or handled, and acknowledged only then |
| `AgentLink.HeardNext` | runner/agent.go:39-123 | every step keeps it so: each take answered exactly whether an ask was handled since the one before it, and a question waits exactly when one was handled since the last |
| `AgentLink.AgentSession.Handle` | runner/agent.go:39-66 | a non-blank ask becomes the question, trimmed, in its own words exactly when nothing in them looks like a secret; anything else changes nothing |
| `AgentLink.AsksHaveWords` | runner/agent.go:55-66 | an ask counts exactly when there is something in it besides white space |
| `AgentLink.AgentSession.RecordQuestion` | runner/agent.go:85-100 | the question is its words if and only if they hold no known secret and no pattern matches, else the notice |
| `AgentLink.AgentSession.TakeQuestion` | runner/agent.go:114-123 | the question, once |
| `Reporter.Reports` | runner/agent.go:170-199 | with timers however late: reports are a subsequence of the states the events led to, none empty, no equal neighbours; any two that are two apart keep the interval, the one asked for or two seconds; an unreported change is always owed |
| `Reporter.CloseReportsTheLast` | runner/agent.go:202-210 | whatever comes between its two halves, once close returns the last report is the current state and no timer is pending |
| `Reporter.QuietAfterClose` | runner/agent.go:185-210 | after that, with no further state, nothing is reported |
| `Reporter.ReportedWhen` | runner/agent.go:170-183 | a changed, non-empty state is reported at once if the interval is over or nothing was reported yet, else a timer waits for the interval's end; an unchanged or empty one is not |
| `Reporter.FlushedWhen` | runner/agent.go:185-192 | a timer reports the state by then, if that is new and not empty |
| `Reporter.HistoryIs` | runner/agent.go:170-173 | the history is one state an event, in order |
| `Reporter.PromptTimersSpaceReports` | runner/agent.go:170-199 | with prompt timers consecutive reports keep the interval |
| `Reporter.TooSoonExactly` | runner/agent.go:176-191 | some event can report too soon if and only if a timer armed before the last report is pending with a change and the interval is not over; and then it is the timer |
| `Reporter.TwoReportsInOneInterval` | runner/agent.go:176-191 | such a run |
| `Reporter.StateReporter.Apply` | runner/agent.go:170-183 | refines the machine's Apply |
| `Reporter.StateReporter.Flush` | runner/agent.go:185-192 | refines the machine's timer |
| `Reporter.StateReporter.Close` | runner/agent.go:202-210 | refines the two halves of a close |
| `Reporter.StepKeepsTwoApart` | runner/agent.go:170-199 | every step keeps reports two apart an interval apart |
| `Branches.NoWorkLost` | worktree/target.go:105-198 | over any sequence of opens, commits, cleans, unforced prunes and outside growth: a commit once reachable from a local branch or a base ref stays so, provided base refs advance and none is a branch a run proved |
| `Branches.OpenMovesForward` | worktree/target.go:150-170 | an Open moves at most its own branch, only for a run on an existing branch, only to origin's copy, only to a descendant |
| `Branches.OnlyProvenAndMergedIsDeleted` | worktree/doctor.go:308-346 | only a prune deletes a branch: one that the directory's proof names, not held, and merged unless forced |
| `Branches.PruneKeepsWork` | worktree/doctor.go:296-346 | an unforced prune that deletes a branch keeps everything saved if and only if its base was another ref or another branch holds it |
| `Branches.DeletedIsMergedIntoOrigin` | worktree/target.go:257-272 | what an unforced prune deletes is merged into origin's copy of the default branch (the one named, else origin's HEAD, else main) if and only if there is such a copy |
| `Branches.MergedOnlyHereIsDeleted` | worktree/doctor.go:196-202 | an instance without one |
| `Branches.UncommittedWorkIsPruned` | worktree/doctor.go:196-200 | in an unforced prune whatever is removed takes uncommitted work with it if and only if git status does not answer and no unmerged branch is seen |
| `Branches.AnUnreadableOrphanLosesItsWork` | worktree/doctor.go:308-346 | an instance |
| `Branches.OpenForward` | worktree/target.go:78-198 | every Open leaves branches and bases where they were or further on |
| `Branches.CommitForward` | worktree/worktree.go:112-128 | a commit moves its branch to a new commit whose only parent is where the branch was |
| `Branches.PruneForward` | worktree/doctor.go:308-346 | an unforced prune takes away only what a base holds |
| `Branches.ForwardSaves` | worktree/target.go:212-215 | what every step keeps implies that commits stay saved |
| `Branches.Choose` | worktree/target.go:126-147 | the least candidate the run may take |
| `Branches.BaseRef` | worktree/target.go:257-272 | the first of the candidates that is there, in their order; none only when none is |
| `Branches.BaseRefIs` | worktree/target.go:257-272 | the base, ref by ref |
| `Branches.ReachIsALine` | worktree/target.go:212-215 | ancestry is a chain of parents |
| `Branches.LineIsReach` | worktree/target.go:212-215 | and every chain of parents is ancestry |
| `Worktrees.Manager.OpenVariant` | worktree/target.go:119-148 | takes the least n in 1..20 that is free here and in origin's refs or local and its own by proof; with none, fails and moves nothing; what it took is proved its own; there is a run exactly when git and the proof allow |
| `Worktrees.Manager.OpenOwn` | worktree/target.go:105-117 | an existing branch is neither moved nor claimed; a new one is at HEAD, with its proof; there is a run exactly when git adds the worktree and, for a new branch, there is a HEAD and the proof is written |
| `Worktrees.Manager.OpenExisting` | worktree/target.go:150-170 | never cut from HEAD; the local branch only moves to a descendant; there is a run exactly when there is a branch here or on origin and git adds it |
| `Worktrees.Manager.OpenDetached` | worktree/target.go:172-198 | starts at origin's copy exactly when that is ahead or the only one, else at the local one, on no branch, moving none |
| `Worktrees.Manager.Open` | worktree/target.go:78-98 | each mode is its step of the machine |
| `Worktrees.Manager.Commit` | worktree/worktree.go:112-128 | one new commit, whose parent is what was checked out, or nothing |
| `Worktrees.Manager.Remove` | worktree/worktree.go:57-63 | the worktree goes and the branch stays |
| `Worktrees.Manager.Doctor` | worktree/doctor.go:101-153 | each line has its class from the repository and the sight, and says why the directory was kept, skipped or pruned; merged is measured against the first base that is there; with orphans alone wanted, every listed checkout of a known task keeps its tree, its proof and its branch; without flags nothing changes; a live, kept or skipped directory is as it was; a deleted branch has a line that proves and merges it; unforced, no work is lost |
| `Worktrees.Manager.Prune` | worktree/doctor.go:308-346 | a skip changes nothing; a branch goes exactly with its own proven directory, when git agrees and nobody else has it out |
| `Worktrees.Manager.DoctorOne` | worktree/doctor.go:122-128 | one directory's line: live exactly when held; metadata only exactly without a tree; orphaned exactly when the tree is no checkout, not listed or of an unknown task; else finished; its branch, proof and changes as seen, and what happened to it |
| `Worktrees.OpenTouchesItsOwn` | worktree/target.go:78-98 | however it is opened, nobody else's worktree or proof is touched and no commit is made |
| `Worktrees.VariantTakesTheFirst` | worktree/target.go:119-148 | a variant works on the first of b, b-2, ..., b-20 that is free or its own, on none exactly when there is none |
| `Worktrees.CandidatesAre` | worktree/target.go:126-130 | the candidates' names |
| `Worktrees.VariantGetsIt` | worktree/target.go:126-147 | and gets a checkout on it: cut from HEAD when new, where it was when its own |
| `Worktrees.ExistingTakesTheNewer` | worktree/target.go:150-170 | a run on an existing branch takes origin's copy exactly when that is ahead and git moves the branch, or when there is no other |
| `Variants.VariantsNeverShare` | worktree/target.go:119-148 | runs of different variants, of one task or two, never work on one branch, nor on a task's own |
| `Variants.CandidatesAreDistinct` | worktree/target.go:53-55 | candidate names are distinct for distinct task, variant and suffix |
| `Variants.CandidatesAreNotOwn` | worktree/worktree.go:44 | no candidate is a task's own branch |
| `Variants.ProofsStayOwn` | worktree/target.go:57-76 | over any sequence of steps a variant's proof names a candidate of its own |
| `Variants.OpenKeepsProofs` | worktree/target.go:70-76 | so does every open of every run |
| `Variants.TargetNamesItsTask` | runner/work.go:68-90 | the task of any run is read back from its directory's name |
| `Variants.TargetsAre` | runner/work.go:68-91 | the branch, mode and directory of every kind of run |
| `Variants.BranchIs` | worktree/worktree.go:44 | a task's own branch |
| `Variants.TaskOfKey` | worktree/worktree.go:98-108 | a task's directory names it, whatever follows the dash |
| `Variants.KeysAreDistinct` | runner/work.go:72-77 | different variants have different directories |
| `Deployer.Execute` | deployer/deployer.go:78-141 | nothing runs for an unlisted profile or an invalid secret; a rollback order runs the profile's rollback alone; any other runs the profile's steps in order, each with its own argv, the migration with its own before the first step named switch, else the last; every program is handed the order's environment; every command that ran is in the log, once and in order; no secret that cannot overlap the mask is in the log, nor in the error of an order that ran |
| `Deployer.Deploy` | deployer/deployer.go:98-141 | what ran is a prefix of the plan, and, in the profile's own argvs, of its steps with its migration; passed exactly when the whole plan and every health check succeeded; a rollback following its own plan exactly after the whole plan and a failed health check; every command that ran is in the log, and no secret that cannot overlap the mask; the health line is that of the checks that answered |
| `Deployer.RunSteps` | deployer/deployer.go:107-132 | the loop is the plan up to the first refusal or failure; the migration after the loop is unreachable |
| `Deployer.RunPlan` | deployer/deployer.go:105-132 | done exactly when every action of the plan succeeded |
| `Deployer.PlanIsUnique` | deployer/deployer.go:143-153 | a profile has one plan |
| `Deployer.PlanInWords` | deployer/deployer.go:105-132 | what ran, in the profile's own words: its steps' argvs in order, its migration's argv at the gate |
| `Deployer.PassedIs` | deployer/deployer.go:105-141 | passed exactly when every step and the migration can be started, every command exits zero and every check answers 200 to 399; then all ran and nothing was undone |
| `Deployer.RollbackIs` | deployer/deployer.go:173-189 | how many commands a rollback starts, and when it ends well |
| `Deployer.SwitchIsTheWord` | deployer/deployer.go:145 | a step is the switch exactly when its name is that word in any case, between white space |
| `Deployer.SwitchAfterMigration` | deployer/deployer.go:107-113 | no step named switch runs before the profile's migration program has run and exited zero |
| `Deployer.DowngradeUndoesMigration` | deployer/deployer.go:107-137 | an automatic rollback downgrades only a reversible migration that ran and succeeded in the same deployment, after every step succeeded, and after the image rollback did |
| `Deployer.MigrationPosition` | deployer/deployer.go:143-153 | the first step named switch, else the last |
| `Deployer.ExecuteRollback` | deployer/deployer.go:173-189 | a rollback follows its plan, image then downgrade, under the environment with the action replaced, and succeeds exactly when all of it does |
| `Deployer.CheckHealth` | deployer/deployer.go:235-273 | healthy exactly when every check answers 200 to 399; which checks answered |
| `Deployer.DeployResult` | deployer/deployer.go:275-288 | the log's last part and the error, redacted: every command in it in order, neither holds a secret that cannot overlap the mask; the health line is as it was |
| `Deployer.LogHolds` | deployer/deployer.go:203-233 | a command in the log has its line and its output there, without the secrets, after what was logged before it |
| `Deployer.LimitIs` | deployer/deployer.go:283-288 | the log is cut to its last megabyte |
| `Deployer.HealthLineIs` | deployer/deployer.go:235-273 | the health line is name=status of each check that answered |
| `Deployer.DeploymentEnvironment` | deployer/deployer.go:155-171 | the allowed variables of the worker, the executor's own, then every secret, or none of it |
| `Deployer.EnvironmentSays` | deployer/deployer.go:155-171 | for every name: a program sees the secret of that name, else what the order says under it, else the worker's own value if it is one of five |
| `Deployer.ValidSecretIs` | deployer/deployer.go:164-167 | which secrets an order may have |
| `Deployer.SafeEnvironment` | deployer/deployer.go:290-299 | the allowed names that are set, in order |
| `Deployer.ReplaceEnvironment` | deployer/deployer.go:191-201 | the first entry of a name is rewritten, or one added |
| `Deployer.ReplacedOthers` | deployer/deployer.go:191-201 | every other variable stays |
| `Deployer.RollbackSeesItsAction` | deployer/deployer.go:173-201 | every command of an order's rollback, ordered or automatic, sees the action rollback if and only if no secret of that name says otherwise, and then the secret |
| `Deployer.ASecretOverridesTheAction` | deployer/deployer.go:155-201 | with a valid secret of that name a rollback's program sees whatever the secret says |
| `Deployer.AnOrderThatDeploys` | deployer/deployer.go:155-201 | such an order |
| `Redact.RedactExactly` | driver/driver.go:136-143 | over all texts, lists and orders, a secret never survives if and only if it cannot overlap the mask |
| `Redact.ScanExactly` | internal/redact/redact.go:29-44 | the same for Scan, for secrets of six bytes or more |
| `Redact.RedactLeavesNothing` | deployer/deployer.go:301-308 | however many secrets, in whatever order the map gives them |
| `Redact.ScanLeavesNothing` | internal/redact/redact.go:29-44 | also after the patterns were replaced |
| `Redact.PlainSecretsDoNotOverlap` | driver/driver.go:136-143 | a secret without brackets that is no part of the mask cannot overlap it |
| `Redact.OverlapSurvives` | driver/driver.go:136-143 | one that can is rebuilt from some text by some second secret |
| `Redact.RedactSecrets` | driver/driver.go:136-143 | the loop is the sequence of replacements |
| `Redact.Scan` | internal/redact/redact.go:29-44 | the loops are the replacements of the long secrets, then of the patterns; found if and only if the text holds a long known secret or a pattern matches it |
| `Redact.ReplaceRemoves` | internal/redact/redact.go:33-36 | a replacement removes its own secret, also where the mask meets its neighbours |
| `Redact.ReplaceKeepsOut` | internal/redact/redact.go:33-36 | and brings back no other |
| `Redact.MaskCutsKeepsOut` | internal/redact/redact.go:37-42 | nor does a pattern pass, over any disjoint intervals |
| `Redact.PatternsKeepOut` | internal/redact/redact.go:37-42 | nor any number of them |
| `Redact.RedactKeepsTheRest` | deployer/deployer.go:301-308 | a pass for a secret puts the mask where it was and keeps everything around it |
| `Redact.MaskKeepsTheRest` | internal/redact/redact.go:37-42 | so does a pattern pass |
| `Redact.ScanKeepsTheRest` | internal/redact/redact.go:37-42 | pattern by pattern |
| `Reviews.BlockRoundTrip` | runner/review_prompt.go:137-155 | for all comments and files, reading the block gives, one review a comment and in their order, its id, author, path and body, and an excerpt exactly when it points into a file that has the lines: from three before to three after, at most 200 |
| `Reviews.ReviewsBlock` | runner/review_prompt.go:137-155 | the builder writes its introduction and that block, which reads back as the comments, and nothing without comments |
| `Reviews.QuoteLines` | runner/review_prompt.go:171-192 | the quoted lines are those of the file from three before the first commented one to three after the last, at most 200, and no others, in order |
| `Reviews.DecodeEscape` | runner/review_prompt.go:226-228 | decoding the entities recovers any text |
| `Reviews.Entities` | runner/review_prompt.go:226-228 | the five predefined entities, and nothing else changed |
| `Reviews.EscapeIsClean` | runner/review_prompt.go:226-228 | escaped text holds no markup |
| `Reviews.PiecesOfRender` | runner/review_prompt.go:146-154 | rendered markup is taken apart into the same pieces |
| `Reviews.ReadFile` | runner/review_prompt.go:157-198 | every shape of the file element gives back its path and excerpt |
| `Reviews.FileSaysWhy` | runner/review_prompt.go:160-195 | what the element says when there is no excerpt |
| `Reviews.FileSaysSide` | runner/review_prompt.go:165-167 | and that a comment is on the old version |
| `Reviews.FileNumbers` | runner/review_prompt.go:196-197 | its line numbers are those of the lines it quotes |
| `Reviews.ShortNumbers` | runner/review_prompt.go:193-195 | or, where the file is too short, those of the comment |
| `Reviews.JoinedLines` | runner/review_prompt.go:197 | the quoted lines can be told apart again |
| `HookCommand.HookCommandRoundTrip` | driver/exec.go:133-157 | under POSIX lexing the hook command is three words, the first the path, for every path |
| `HookCommand.QuotedWord` | driver/exec.go:155-157 | a quoted value is one word, itself |
| `HookCommand.QuotedValue` | driver/exec.go:155-157 | wherever it stands in a word |
| `Queue.Next` | queue/queue.go:294-323 | the least ready task with every dependency satisfied, or the first that waits for another project |
| `Queue.StartIs` | queue/queue.go:339-362 | what can start: a ready task whose local dependencies are there and done and whose siblings' are done there |
| `Queue.WaitsIs` | queue/queue.go:315-317 | what waits: a ready task whose first unfinished dependency is a sibling's |
| `Queue.LessIs` | queue/queue.go:294-304 | tasks come in the order of their ids, byte by byte |
| `Queue.Blocker` | queue/queue.go:327-362 | the first dependency that is not satisfied |
| `Queue.NoTaskOnACycleStarts` | queue/queue.go:339-362 | when tasks become done only by running, no task on a local cycle ever starts |
| `Queue.StartsInOrder` | runner/runner.go:416-425 | over every trace: a task starts only after each unfinished task it depends on has started strictly before, and with every sibling's done |
| `Queue.ChainsStartInOrder` | queue/queue.go:339-362 | along any chain of dependencies tasks start in the opposite order |
| `Queue.DoneMeansRan` | queue/queue.go:339-362 | when tasks become done only by running, a task that was unfinished and is done has run |
| `Queue.StuckIffEntangled` | queue/queue.go:339-362 | nothing can start if and only if every unfinished task waits for another |

## Left out

- HTTP, JSON, heartbeats, progress posts, deployments claimed by the worker, artifacts, bundles and the syncer, the command line and printing: plumbing, or easy claims.
- git, Docker, process teardown and process scans: their outcomes are environment answers.
- The AI driver, MCP tools and prompt wording: they depend on prose and on libraries not shown. What stands before the review block is an argument.
- The redaction patterns' regular expressions: a pattern is any choice of disjoint non-empty intervals.
- Case folding and trimming beyond ASCII, and the truncation of questions and notes: a question is kept whole.
- The trilha-spec library: the moves a store accepts are the environment's, and the agent's next state is an input of `Reporter`.
- AttemptLoop.Loop.Move: the store changes only by this run's moves; people moving the task meanwhile are not modelled.
- AttemptLoop.Loop.Fail: the run record it writes is not modelled; whether it is written changes nothing in the result.
- AttemptLoop.Loop.AfterFailure: the last attempt may be marked recovered, after a cancelled wait; that is the code's behaviour, so only earlier attempts are said to be followed.
- Checkpoints, logs, diff statistics, session ids, elapsed times and models of an attempt: carried along, never looked at by the loop.
- Token sums are unbounded integers, and costs reals, so no overflow or rounding.
- Worker.NothingIsLost: a result still in memory when the worker stops, or with no checkout or an unsafe run id to write it under, is not covered, as in the source; file operations succeed, and a restart looks in the same roots.
- ResultOutbox.PendingOutbox: a file that vanishes while the list is sorted is not modelled.
- ResultOutbox.Outbox.Flush: a file that cannot be read although it is there is not modelled; it is skipped.
- The order in which outcomes leave the worker's channel is arbitrary, and a cloud is assumed to answer 409 only when it holds a result for the run.
- AgentLink.AcknowledgedIsHandled: the server's goroutines are a state machine on values; deadlines and lines too long are a hang-up at any time.
- Reporter.Reports: sends are recorded, not delivered; a monotone clock is assumed.
- Branches.NoWorkLost: agents and people that delete or rewrite a branch, forced prunes, and a process moving a branch between a prune's look and its removal are outside it.
- Variants.ProofsStayOwn: a crash between creating a variant's worktree and writing its proof leaves the branch to nobody; a checkout without a proof is reused, as in the source.
- Worker.Capacity: that a worker told to run once stops after one outcome is not modelled; a stop is possible at every step.
- Worktrees.Manager.Doctor: sizes, age buckets and counts are not modelled, nor that pruning a directory also removes an undelivered result in it.
- Worktrees.Manager.OpenDetached: the final look at HEAD is taken to answer what was checked out.
- Deployer.Deploy: durations and timeouts; an environment decides each exit and each line logged, and the wording of errors is not stated.
- Reviews.BlockRoundTrip: reading a file through links is an environment answer, and a line too long for the scanner ends the file.
- Queue.Next: store and sibling errors; a sibling that cannot be opened is one where nothing is done.
