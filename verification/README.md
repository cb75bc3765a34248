# Verification of the SRE chat agent

A Dafny model of the parts of the agent whose correctness spans several functions or several
processes, with proofs of what they guarantee. `dafny verify dfyconfig.toml` checks the project.

## What is modelled

**Step leases** (`LeaseStore`, `LeaseRuns`, `LeaseClaims`, `WorkerSystem`). The dispatch adapter is a class over the
two tables; its SQL statements are its methods. A run is any sequence of calls by anyone with time
passing in between; the holder of a step is defined from the calls alone, and the stored token is
proved to name it. The worker processes, the control plane and the clock form a transition system, in
which other calls run between the two statements of a `complete`; its runs are adapter runs.

**Pattern mining** (`PlanGraph`, `PatternMining`, `MiningLaws`, `EvolutionJob`, `MiningLimits`,
`RuleRings`, `MiningShares`, `MiningWitnesses`). The extractors are the loops of the program, proved against counts
defined by reachability and generations; the laws are about those counts, for every list of plans.

**The agent graph** (`Text`, `AgentGraph`, `AgentRuns`, `AgentRoutes`, `SavedPlans`). Nodes and routes are functions on
the state; what the language model, the user, the registry, the cache and the tools answer at a step
is an arbitrary `Env`. The theorems quantify over every sequence of such answers from a fresh thread.

**Event log and chat client** (`ChatEvents`, `ChatThread`, `ChatScreen`, `ChatDelivery`, `ChatSystem`). The server
appends, the client polls by index and folds the events into what it shows, the user replies.

**Registry cache, type names, URL templates** (`RegistryCache`, `TypeNames`, `UrlTemplate`).

## Where the code does less than its text suggests

- The extractors promise rules seen in at least a given share of the plans, but count pairs of steps and
  rounds. The promise is kept for a pair of tools, whatever the threshold, exactly when no plan orders
  them through two pairs of steps, or has them meet in two generations (`OrderingPromiseExactly`,
  `ParallelPromiseExactly`); a caller can check that no plan repeats the tools (`PromisesKept`). Otherwise
  one plan in ten can be enough to pass both thresholds of the job (`MinedFromOnePlan`,
  `ParallelFromOnePlan`), and with a repeated tool one batch can propose an ordering both ways
  (`RepeatedToolBothWays`).
- Consistent plans can still give a ring of orderings: n plans a ring of k exactly when
  k * (n - ceil(0.9 n)) >= n, so ten plans one of ten (`RingExactly`, `TenRuleCycle`) and no plans a
  shorter one (`NoShortRuleCycle`).
- A round that mixes a missing tool name with another name cannot be sorted, and the job gives up
  (`CountParallel`).
- A blank reply, and the bare word "modify", approve. Because six characters are cut off the unstripped
  reply, leading blanks leave a part of the word, or all of it, in the feedback (`ModifyTextExactly`), and a
  blank in front of the bare word makes it feedback (`AfterModifyEmpty`, `LeadingBlankModify`).
  "go" approves a step but is feedback on a proposal. A proposal approved by a blank reply or a bare "modify"
  goes on to the report without the remediation phase (`ReportPhase`).
- A worker that cannot find its tool and has lost its lease meets an error nothing catches, and its loop
  ends (`ExecuteAndComplete`, phase `Crashed`). The adapters of the repository put no tool name on a step
  message, so this takes an adapter that does. A cancelled worker keeps its lease.
- A lookup that finds two reviewed rows fails the job, and the rows it added before stay in the caller's
  session (`WriteSuggestions`). The lookup of a parallel rule ignores its tools: one reviewed parallel rule
  keeps all others out, and two make every run that mines one fail (`OneParallelReviewForAll`).
- A paused graph waits for ever exactly when, at any time before, the client got nothing new for longer than
  the stale timeout, or the request that carries a reply failed, or the user left the thread
  (`LostExactly`, `LostForGood`). The timeout also strikes while the agent works on one step, before any
  question is asked (`LostBeforeAsked`), and while a user thinks; a reply that fails is lost because the
  client closes the question before it sends. After a failed run the client polls on and adds a timeout
  error (`FailureTimesOut`). Overlapping ticks repeat and skip events (`OverlapRepeats`, `OverlapSkips`).
- The two type mappers differ on a schema with both a primitive type and other alternatives, on bare type
  names, and on a list of types, such as "string or null", where one raises (`MappersAgree`,
  `SeveralTypes`).
- URL filling depends on the order of the inputs exactly when the values have braces of both kinds among
  them (`OrderNeverMattersExactly`, `BothBracesMatter`).

## Assumptions

- Workers have distinct ids and share one LEASE_SECS; adapter calls fail only by the lease error; a tool
  does not itself raise the lease error. `result.status` is one of the three documented values.
- Plans are called sound when acyclic and without repeated tools; the laws that need it say so.
- The context manager and the policy gate are not in the repository: the first is taken to change messages
  only, the second to return a tool result; both are otherwise arbitrary.
- Appending to the event log succeeds, and the graph's interrupts are the four of its own nodes.
- The session of the evolution job may flush added rows or not: a lookup does not find open rows
  (`OpenRowsNotFound`).
- Message ids of the client are unique, and the digest of a query text stands for the text.
- Lower-casing is that of ASCII letters; blanks are Python's.

## Model

| member | source | states |
|---|---|---|
| LeaseStore.PostgresDispatchAdapter.NextPendingStepId | worker_agent/dispatch/postgres.py:33-39 | answers a pending step if there is any, and None only if there is none |
| LeaseStore.PostgresDispatchAdapter.Enqueue | worker_agent/dispatch/postgres.py:41-45 | changes the status of an existing row to PENDING and nothing else |
| LeaseStore.PostgresDispatchAdapter.Claim | worker_agent/dispatch/postgres.py:47-72 | succeeds exactly on a pending row that is unlocked or past its expiry, and hands out the next attempt number |
| LeaseStore.PostgresDispatchAdapter.Extend | worker_agent/dispatch/postgres.py:74-87 | moves the expiry exactly for the holder of the token |
| LeaseStore.PostgresDispatchAdapter.Complete | worker_agent/dispatch/postgres.py:89-126 | commits exactly for the holder; any other outcome leaves both tables as they were, although the result row is inserted first |
| LeaseStore.PostgresDispatchAdapter.Release | worker_agent/dispatch/postgres.py:128-137 | returns the row to PENDING and unlocked exactly for the holder |
| LeaseRuns.TokenIsHolder | worker_agent/dispatch/postgres.py:41-137 | over every run the stored token is the most recent successful claimer that has not completed or released since |
| LeaseRuns.Fencing | worker_agent/dispatch/postgres.py:89-126 | over every run `complete` commits exactly for the current holder, with one new result and no holder left; otherwise nothing changes |
| LeaseRuns.AttemptsConserved | worker_agent/dispatch/postgres.py:53-60 | attempts equal successful claims, and each claim ended in one result, one release, one takeover, or is the lease still held |
| LeaseRuns.AlwaysDisciplined | worker_agent/dispatch/postgres.py:89-126 | at most one result per attempt, in increasing order; a terminal status is the status of the result of the latest attempt; RUNNING rows have a lease and finished rows none |
| LeaseRuns.CommitNumbering | worker_agent/dispatch/postgres.py:100-115 | a committed result is numbered by how often the step was claimed |
| LeaseRuns.SameSteps | worker_agent/dispatch/postgres.py:41-137 | no call adds or removes a step or moves it to another plan |
| LeaseRuns.HeldRow | worker_agent/dispatch/postgres.py:41-87 | while held, a row is RUNNING unless it was enqueued again, and its expiry is the one of the last renewal |
| LeaseRuns.TakeoverExactly | worker_agent/dispatch/postgres.py:47-60 | a held step changes hands exactly when it was enqueued again and the last expiry has passed |
| LeaseClaims.PendingExactly | worker_agent/dispatch/postgres.py:41-137 | over every run a row is pending exactly when the step was never touched or the last call that settled it is a release or an enqueue |
| LeaseClaims.LockedExactly | worker_agent/dispatch/postgres.py:47-137 | a row is locked by a worker exactly when that worker's claim is the last call that moved its lease |
| LeaseClaims.ClaimExactly | worker_agent/dispatch/postgres.py:47-72 | when a claim takes effect, told from the calls before it: the step is in the table, waits, and has no lease whose last renewal still runs; it then holds the row, RUNNING, for a lease, in the next attempt |
| LeaseClaims.UnleasedClaim | worker_agent/dispatch/postgres.py:57-60 | a step nobody has leased is claimed exactly when it was never touched or last released or enqueued |
| WorkerSystem.ExecuteAndComplete | worker_agent/worker/main.py:63-116 | the worker holds the step afterwards exactly when it was cancelled as its holder; besides a cancellation only a refusal while reporting an unknown tool escapes |
| WorkerSystem.SystemRefinesAdapter | worker_agent/worker/main.py:119-147 | every interleaving of workers, control plane and time is a run of the adapter, also of the two statements of `complete` |
| WorkerSystem.AlwaysReadFits | worker_agent/dispatch/postgres.py:100-124 | the attempt number read by the INSERT is still that of the row when the UPDATE finds the token |
| WorkerSystem.SystemDisciplined | worker_agent/worker/main.py:119-147 | so the two tables agree in every system state |
| WorkerSystem.AlwaysLeasesOwned | worker_agent/worker/main.py:63-147 | every lease belongs to a worker executing that step in that attempt |
| WorkerSystem.LeaseMeansExecuting | worker_agent/worker/main.py:63-147 | a worker holds at most one lease, for the step it is executing, and none outside the execution |
| WorkerSystem.CommitsOwnAttempt | worker_agent/worker/main.py:94-102 | although the token names a worker only, what a worker commits is for the attempt it was handed |
| WorkerSystem.TimelyHeartbeatsKeepLeases | worker_agent/worker/main.py:52-60 | if every heartbeat lands within the other half of the lease, no lease of an executing worker lapses, whatever is enqueued, and no worker ends by an error |
| WorkerSystem.TimelyHeartbeatsExclude | worker_agent/worker/main.py:52-102 | then no one can claim a step under execution, and every `complete` commits |
| WorkerSystem.HalvesOfLease | worker_agent/worker/main.py:57 | the two halves, one rounded down and one up, make up the lease |
| WorkerSystem.LateHeartbeatLosesLease | worker_agent/dispatch/postgres.py:47-60 | the limit is exact: an enqueued step changes hands once a whole lease has passed without a heartbeat, and not before |
| WorkerSystem.PollAnswers | worker_agent/dispatch/postgres.py:33-39 | a poll hands out any pending step, and nothing exactly when none is pending |
| WorkerSystem.FirstClaim | worker_agent/worker/main.py:119-147 | from the start, a poll and a claim lead to the execution of attempt 1 under a lease |
| WorkerSystem.TakenStepPolls | worker_agent/worker/main.py:119-147 | a worker whose claim fails, or that finds nothing, polls again |
| WorkerSystem.EnqueueIsPending | worker_agent/dispatch/postgres.py:41-45 | what the control plane changes |
| WorkerSystem.EndOfExecution | worker_agent/worker/main.py:63-116 | for a holder, each way a tool ends stores what `execute_and_complete` stores, and the worker is free again |
| WorkerSystem.CrashesExactly | worker_agent/worker/main.py:63-93 | a loop ends by an error exactly when it reports an unknown tool of a step it does not hold |
| WorkerSystem.HeartbeatsSpaced | worker_agent/worker/main.py:52-60 | heartbeats come half a lease after a renewal at the earliest, and end when the lease is gone |
| PlanGraph.BuildGraph | worker_agent/evolution/patterns.py:14-20 | one node per id with the last tool, and an edge from each dependency that is in the plan |
| PlanGraph.LastToolWins | worker_agent/evolution/patterns.py:15-16 | of steps with the same id the tool of the last one counts |
| PlanGraph.TransitiveClosure | worker_agent/evolution/patterns.py:58-62 | the pairs walked are exactly those joined by a path of one or more edges |
| PlanGraph.GetParallelRounds | worker_agent/evolution/patterns.py:10-28 | one tool set per generation, keeping the rounds found before a cycle |
| PlanGraph.PeelShape | worker_agent/evolution/patterns.py:22-25 | generations are disjoint and not empty |
| PlanGraph.GenerationIsDepth | worker_agent/evolution/patterns.py:22-25 | the generation of a step is the length of its longest dependency chain |
| PlanGraph.Antichain | worker_agent/evolution/patterns.py:22-25 | no step of a generation depends on another of it |
| PlanGraph.CompleteIffAcyclic | worker_agent/evolution/patterns.py:22-28 | the generations use up all steps exactly when the plan has no cycle |
| PatternMining.CountOrderings | worker_agent/evolution/patterns.py:44-68 | the dictionary holds, for each named tool pair, the number of step pairs ordered that way over all plans |
| PatternMining.ExtractConsistentOrderings | worker_agent/evolution/patterns.py:31-83 | exactly the pairs whose count reaches the frequency, each once, with the frequency to four digits; always two different non-empty names |
| PatternMining.CountParallel | worker_agent/evolution/patterns.py:99-107 | the dictionary holds, for each two tools, the number of rounds with both; fails exactly when a round cannot be sorted |
| PatternMining.UnsortableExactly | worker_agent/evolution/patterns.py:105-106 | sorting fails exactly when a generation has a step without a tool name beside one with a name |
| PatternMining.ExtractParallelPatterns | worker_agent/evolution/patterns.py:86-122 | exactly the sets of two tools whose count reaches the frequency, each once, with the frequency to four digits |
| PatternMining.RoundedExact | worker_agent/evolution/patterns.py:79 | for a batch of ten the rounding loses nothing |
| PatternMining.RoundedTie | worker_agent/evolution/patterns.py:79 | ties go to the even digit |
| MiningLaws.PlanBudget | worker_agent/evolution/patterns.py:46-107 | in an acyclic plan with distinct tools two tools are ordered one way, or the other, or share a round, at most one of these and once |
| MiningLaws.PairBudget | worker_agent/evolution/patterns.py:46-107 | over n such plans the three counts of a pair add up to at most n |
| MiningLaws.RulesExclusive | worker_agent/evolution/job.py:20-42 | at thresholds 0.9 and 0.8 a pair gets at most one rule |
| MiningLaws.Triangle | worker_agent/evolution/patterns.py:59-66 | count(a,c) >= count(a,b) + count(b,c) - n |
| MiningLaws.CycleCost | worker_agent/evolution/patterns.py:46-83 | k rules in a ring, each seen in q of n plans, need k * (n - q) >= n |
| MiningLaws.NoShortRuleCycle | worker_agent/evolution/job.py:20-41 | for any number n of plans, a cycle of k mined orderings needs k * (n - ceil(0.9 n)) >= n, so none is shorter than ten |
| RuleRings.RingExactly | worker_agent/evolution/patterns.py:46-83 | the bound is exact: n sound plans can give a ring of k orderings exactly when k * (n - ceil(0.9 n)) >= n |
| RuleRings.TenRuleCycle | worker_agent/evolution/job.py:15-44 | ten sound plans make the job propose a ring of ten |
| MiningShares.OrderInMeans | worker_agent/evolution/patterns.py:59-66 | a plan is counted for an ordering exactly when a step of the one tool precedes a step of the other, and once exactly when only one pair of steps does |
| MiningShares.OrderInExactly | worker_agent/evolution/patterns.py:59-66 | for any two different non-empty names: a plan is counted exactly when a step using the one reaches a step using the other |
| MiningShares.CandidatesAreShown | worker_agent/evolution/patterns.py:62-82 | at any threshold an ordering is between two different non-empty names, and some plan shows it |
| MiningShares.OrderingIsShareOfPlans | worker_agent/evolution/patterns.py:35-39 | the count is the number of plans that show the ordering exactly when each shows it through at most one pair of steps |
| MiningShares.OrderingPromiseExactly | worker_agent/evolution/patterns.py:35-39 | exactly then is every candidate seen in the share of plans that the documentation promises, whatever the threshold |
| MiningShares.RoundsWithMeans | worker_agent/evolution/patterns.py:104-107 | a plan is counted for a pair exactly when the two tools meet in a generation, and once exactly when they meet in one only |
| MiningShares.ParallelIsShareOfPlans | worker_agent/evolution/patterns.py:90-94 | the count is the number of plans in which two tools meet exactly when they meet at most once in each |
| MiningShares.ParallelPromiseExactly | worker_agent/evolution/patterns.py:90-94 | exactly then is every parallel pair seen in the promised share of plans |
| MiningShares.PromisesKept | worker_agent/evolution/patterns.py:31-122 | what a caller can check: no plan repeats the tools of the rule, or for a parallel pair one of them |
| MiningWitnesses.MinedFromOnePlan | worker_agent/evolution/job.py:20-44 | a job proposes an ordering at 0.9 that one plan in ten shows |
| MiningWitnesses.ParallelFromOnePlan | worker_agent/evolution/job.py:20-44 | a job proposes a parallel pair at 0.8 that one plan in ten shows |
| MiningLimits.RepeatedToolBothWays | worker_agent/evolution/patterns.py:62-66 | ten acyclic plans that repeat a tool make the job propose an ordering both ways |
| EvolutionJob.Session.WriteSuggestions | worker_agent/evolution/job.py:46-81 | fails exactly when a lookup finds two reviewed rows; adds the rows of the candidates looked up before that, in order, and nothing else |
| EvolutionJob.UnreviewedEach | worker_agent/evolution/job.py:54-79 | a row is added for a candidate whose lookup finds nothing, as often as it is a candidate, and for no other |
| EvolutionJob.UnreviewedAppend | worker_agent/evolution/job.py:54-79 | the rows come in the order of the candidates |
| EvolutionJob.MinedDoNotConflict | worker_agent/evolution/job.py:41-42 | no two mined rules contradict each other |
| EvolutionJob.Run | worker_agent/evolution/job.py:23-44 | nothing below ten plans; otherwise the mined rules without a reviewed row, each once, never two that contradict each other for a sound batch; all of them unless it fails, which is exactly when a round cannot be sorted or a lookup finds two reviewed rows |
| EvolutionJob.OrderingLookup | worker_agent/evolution/job.py:56-66 | a reviewed ordering keeps out the orderings of the same two tools in the same order, and nothing else |
| EvolutionJob.OneParallelReviewForAll | worker_agent/evolution/job.py:56-66 | a reviewed parallel rule keeps every other one out, and two make each run that mines one fail |
| AgentGraph.Nearest | agent/nodes/extract_intent.py:56-69 | the earliest candidate of highest score with that score, or the first one with zero when no score is positive |
| AgentGraph.CosineNearest | agent/nodes/extract_intent.py:56-69 | the running maximum finds that candidate and its score |
| AgentGraph.Validated | agent/nodes/extract_intent.py:156-185 | an unregistered action becomes a registered one of highest score exactly when some score is above 0.85, and makes the intent ambiguous otherwise, with a reason |
| AgentGraph.Step | agent/graph/builder.py:50-79 | every route leads to a target registered for its node |
| AgentRuns.AfterModifyEmpty | agent/nodes/hitl_step_review.py:70-72 | the text after "modify" is empty exactly for the bare word without leading blanks |
| AgentRuns.StepReviewByVerdict | agent/nodes/hitl_step_review.py:63-88 | how each reply to a step review is routed, for all replies |
| AgentRuns.ProposeFixByVerdict | agent/nodes/propose_fix.py:52-89 | how each reply to a proposal is routed, for all replies |
| AgentRuns.LeadingBlankModify | agent/nodes/hitl_step_review.py:70-72 | a blank before the bare word turns approval into feedback |
| AgentRuns.ModifyTextExactly | agent/nodes/hitl_step_review.py:70-72 | the feedback is the text after the word "modify" exactly when the reply has no leading blank |
| AgentRuns.AlwaysInv | agent/graph/builder.py:50-79 | the invariant of every run of a fresh thread |
| AgentRuns.HistoryNumbered | agent/nodes/observe.py:21-52 | steps are numbered 1, 2, 3, ..., one per observed round, with one finding each and one more after a cache hit |
| AgentRuns.ToolsRunOnlyApproved | agent/graph/routes.py:21-38 | a tool runs exactly after an approved review of a thought without a signal, and it is the reviewed thought |
| AgentRuns.EveryRecordApproved | agent/nodes/observe.py:35-48 | the records of a run match one to one, in order, the approvals acted on, each with the approved reasoning, tool and inputs and the finding made then |
| AgentRuns.ReviewRejectsOrRevises | agent/graph/routes.py:27-32 | rejection ends the run, revision goes back with feedback |
| AgentRuns.RejectedProposal | agent/graph/routes.py:53-54 | a rejected proposal ends the run exactly when there was neither a cache hit nor an earlier modification |
| AgentRuns.CacheHitNeverReturns | agent/nodes/propose_fix.py:64-81 | the cache flag never returns to True |
| AgentRuns.CachedPlanShownOnce | agent/nodes/propose_fix.py:22-24 | the cached plan is shown at most once in a run |
| AgentRuns.ShownPlanWasFound | agent/nodes/propose_fix.py:22-24 | and it is the plan the lookup found, or the placeholder if that was empty |
| AgentRuns.RemediateAfterReport | agent/graph/builder.py:78-79 | the remediation agent is called exactly after a report |
| AgentRuns.ReportExactlyWhen | agent/graph/routes.py:21-56 | what leads to a report, in both directions |
| AgentRuns.AnalysisPhaseInLoop | agent/nodes/propose_fix.py:69-70 | the remediation phase is never seen before the report |
| AgentRuns.IntakeTerminates | agent/nodes/clarify.py:8-25 | intake ends within six steps and at most three extractions |
| AgentRuns.CacheConsultedFor | agent/graph/routes.py:7-13 | for which intents the plan cache is consulted |
| AgentRoutes.ReplyWords | agent/graph/routes.py:3-4 | the words that approve and those that reject |
| AgentRoutes.ClarificationsAre | agent/nodes/clarify.py:8-25 | the attempts counted are the questions asked |
| AgentRoutes.IntakeExactly | agent/graph/routes.py:7-13 | over every run, a question is asked exactly while the intent is unclear and fewer than two were asked, and the plan cache is consulted exactly otherwise |
| AgentRoutes.ProposalExactly | agent/graph/routes.py:16-56 | a fix is proposed exactly after a cache hit, a summary answered by an approval word, or a revision of a proposal |
| AgentRoutes.ThinkExactly | agent/graph/routes.py:16-56 | what leads to a thought: a cache miss, an observation, a step to revise, or a rejected proposal in a run with a cache hit or a modification |
| AgentRoutes.EndExactly | agent/graph/routes.py:21-56 | what ends a run, and what leads to the summary |
| AgentRoutes.FeedbackForThink | agent/nodes/hitl_step_review.py:66-75 | a thought gets the text of the reply that asked for a revision, and no other feedback |
| AgentRoutes.FeedbackForProposal | agent/nodes/propose_fix.py:64-67 | so does a proposal |
| AgentRoutes.PlanIsShown | agent/nodes/propose_fix.py:22-39 | the plan of a run is the model's text of the last proposal unless the cached one was shown; the report is the model's |
| AgentRoutes.ReportPhase | agent/nodes/propose_fix.py:64-70 | a report belongs to the remediation phase exactly after a proposal approved by a word of the list |
| AgentRoutes.PhaseKept | agent/nodes/propose_fix.py:72-81 | what sets the phase, and what the rejection of a cached plan undoes |
| AgentRoutes.AnswersAreKept | agent/nodes/extract_intent.py:156-185 | the intent is the model's with at most its action corrected; replies and tool results are kept as they came |
| AgentRoutes.MissingValues | agent/nodes/observe.py:15-52 | what is stored where an intent, a thought or the phase is missing |
| AgentRoutes.FindingsAre | agent/nodes/observe.py:46-52 | the findings of a run are that of the cached plan and then those of its records in order |
| Text.StripShape | agent/nodes/hitl_step_review.py:68 | stripping cuts off the longest blank prefix and suffix |
| Text.BlankCodes | agent/nodes/hitl_step_review.py:68 | which characters are blank |
| Text.LowerLetters | agent/nodes/hitl_step_review.py:68 | lower-casing maps the letters A to Z and nothing else |
| Text.DecimalValue | agent/nodes/report.py:95 | a printed step number reads back as that number |
| Text.DecimalInjective | agent/nodes/report.py:95 | different step numbers give different step ids |
| SavedPlans.SavedPlanShape | agent/nodes/report.py:94-102 | stored plans have unique ids, one result per step and no dependencies |
| SavedPlans.SavedPlanContents | agent/nodes/report.py:94-102 | step i of a stored plan has the tool of the i-th approved thought, and its result is what was found then |
| SavedPlans.FlatRounds | worker_agent/evolution/patterns.py:22-24 | a plan without dependencies has one round with all its tools |
| SavedPlans.MiningSavedPlans | worker_agent/evolution/patterns.py:31-122 | stored plans never yield an ordering, and a parallel frequency is exactly the share of plans using both tools |
| ChatEvents.SREAgent.PublishStream | worker_agent/main.py:230-298 | appends the node events, the summed token usage and one terminal event; an exception replaces the rest by an error |
| ChatEvents.StreamAddsUp | worker_agent/main.py:236-268 | published events and token totals of a stream are those of its parts, in order |
| ChatEvents.StreamEventAlone | worker_agent/main.py:239-260 | of a single event: starts and ends of the graph's own nodes are published, tokens of model calls counted |
| ChatEvents.SREAgent.GetEvents | worker_agent/main.py:597-609 | what a client has read up to an index and what a poll from it gives make up the log |
| ChatEvents.PollsAddUp | worker_agent/main.py:597-609 | successive polls of a growing log give every event once |
| ChatThread.ChatThreadHook.HandlePayload | frontend/src/hooks/useChatThread.ts:250-255 | handles what a payload maps to, and stops on `done` only |
| ChatThread.ChatThreadHook.Tick | frontend/src/hooks/useChatThread.ts:246-267 | one tick folds the batch up to the first `done`, advances the cursor, or times out |
| ChatThread.MapsDoneAlone | frontend/src/lib/eventMapper.ts:15-19 | only the done event maps to done |
| ChatSystem.OwnInterrupts | frontend/src/lib/eventMapper.ts:27-90 | the interrupts the system of server and client allows are those of the nodes that ask |
| ChatSystem.PublishIsServerRun | worker_agent/main.py:230-298 | what one stream appends is a run of the server's single actions, and it stops the server |
| ChatSystem.ExactlyOnceInOrder | frontend/src/hooks/useChatThread.ts:246-263 | with ticks that do not overlap, the handled payloads are a prefix of the log, each once and in order, up to its `done`; the screen is their fold between the replies, with the timeout error if the client gave up; it polls exactly until it handled `done`, gave up or left |
| ChatSystem.AwaitsExactlyUnanswered | frontend/src/hooks/useChatThread.ts:118-333 | the client awaits a reply exactly when it has handled the whole log, an interrupt is unanswered, no reply was refused, and it has neither given up nor left |
| ChatSystem.QuestionsOneAtATime | frontend/src/hooks/useChatThread.ts:278-310 | at most one interrupt is unanswered, and nothing is unread while a question is open |
| ChatSystem.LostExactly | frontend/src/hooks/useChatThread.ts:259-310 | over every run, a waiting server waits in vain exactly when a reply was refused, a tick gave up, or the user left before |
| ChatSystem.LostBeforeAsked | frontend/src/hooks/useChatThread.ts:259-263 | one slow step of the graph loses the next question before it is asked |
| ChatSystem.FailureTimesOut | frontend/src/hooks/useChatThread.ts:190-196 | a failed run ends with a second error about a timeout |
| ChatSystem.QuestionLostExactly | frontend/src/hooks/useChatThread.ts:259-330 | an open question is lost exactly by a tick past the stale timeout, a refused reply, or leaving |
| ChatSystem.LostForGood | frontend/src/hooks/useChatThread.ts:278-310 | after that the server waits for ever and no reply reaches it |
| ChatScreen.OverlapRepeats | frontend/src/hooks/useChatThread.ts:246-270 | of two ticks in flight together, the second handles all events of the first again, also after a `done` |
| ChatScreen.OverlapSkips | frontend/src/hooks/useChatThread.ts:246-270 | and without one as many later events are never polled |
| ChatScreen.ReportShownWithVerdict | frontend/src/hooks/useChatThread.ts:176-233 | a report is held back until done, then shown once with the decision of the chain |
| ChatScreen.ResultReplacesRunning | frontend/src/hooks/useChatThread.ts:98-115 | a result takes the place of the running line of its own tool |
| ChatScreen.ResultPosition | frontend/src/hooks/useChatThread.ts:98-115 | and stands where the first running line of the tool stood, or last |
| ChatDelivery.ClarificationShown | frontend/src/lib/eventMapper.ts:37-41 | an interrupt with a question is asked with the first question there is |
| ChatDelivery.ReviewShown | frontend/src/lib/eventMapper.ts:53-87 | each review node opens the question of its own kind with its own text |
| ChatDelivery.ReviewPrecedence | frontend/src/lib/eventMapper.ts:53-90 | which question is opened when several nodes are next, and without values |
| ChatDelivery.PlanShown | frontend/src/lib/eventMapper.ts:43-119 | a plan is a question exactly when a step needs approval |
| ChatDelivery.ToolStartShown | frontend/src/hooks/useChatThread.ts:79-133 | the start of `act` shows its tool as running, in the growing message or in a new one |
| ChatDelivery.OtherStartShown | frontend/src/lib/eventMapper.ts:121-131 | the start of any other node, or of `act` without a tool, shows nothing |
| ChatDelivery.ObservedShown | frontend/src/lib/eventMapper.ts:137-142 | the end of `observe` shows its findings in order, a single one in place of its running line |
| ChatDelivery.ObservedAlone | frontend/src/hooks/useChatThread.ts:98-115 | without a growing message a finding opens one |
| ChatDelivery.RunEndsWithReport | frontend/src/lib/eventMapper.ts:100-151 | from the events of the last nodes to the screen: the report is shown once, with the decision of the chain's output, or "UNKNOWN" exactly when it has none |
| ChatDelivery.EmptyReportShown | frontend/src/lib/eventMapper.ts:144-150 | an empty report is not shown |
| ChatDelivery.ReportDelivered | frontend/src/hooks/useChatThread.ts:180-188 | a report is held back and closes an open question |
| ChatDelivery.ChainDelivered | frontend/src/lib/eventMapper.ts:100-108 | the chain's decision, or "UNKNOWN" |
| ChatDelivery.FailureShown | frontend/src/hooks/useChatThread.ts:190-196 | an error is shown and closes everything |
| ChatDelivery.BudgetShown | frontend/src/hooks/useChatThread.ts:198-213 | a compaction is shown when it sets in, not again while it lasts |
| ChatDelivery.PlainDoneShown | frontend/src/hooks/useChatThread.ts:215-233 | `done` without a report only ends the run |
| ChatDelivery.OtherNodeShown | frontend/src/lib/eventMapper.ts:131-151 | the end of any other node shows nothing |
| ChatDelivery.ReplyShown | frontend/src/hooks/useChatThread.ts:278-310 | what a reply changes on the screen |
| RegistryCache.ScalableRegistryClient.Retrieve | worker_agent/registry/scalable.py:187-227 | the effect of one lookup on both levels |
| RegistryCache.ServiceAnswers | worker_agent/registry/scalable.py:208-227 | with no live entry to read, the answer is the whole response of the service, and the process's own level holds it for its lifetime |
| RegistryCache.CachedAnswers | worker_agent/registry/scalable.py:193-204 | with one, the service is not asked; an answer from the shared level is copied to the own level for its lifetime |
| RegistryCache.FlushEmptiesOwn | worker_agent/registry/scalable.py:63-64 | a flush empties the own level of one process and nothing else |
| RegistryCache.SameRequest | worker_agent/registry/scalable.py:263-281 | which lookups share an entry of the shared level |
| RegistryCache.BoundedStaleness | worker_agent/registry/scalable.py:187-302 | a cached answer is a response to the same request younger than both lifetimes together, an empty one younger than the first; the shared level holds no empty answer |
| RegistryCache.OwnAnswerIsServed | worker_agent/registry/scalable.py:54-61 | a response is served again from the process's own level until it expires or is flushed, whatever happens meanwhile |
| RegistryCache.ResponseIsShared | worker_agent/registry/scalable.py:220-227 | a non-empty response goes to the shared level with its own lifetime |
| RegistryCache.SharedAnswerIsServed | worker_agent/registry/scalable.py:267-301 | any process without an entry of its own is served it from the shared level until it expires or a newer response replaces it |
| RegistryCache.FailureNotRemembered | worker_agent/registry/scalable.py:213-219 | a failure is answered with an empty list and cached nowhere |
| TypeNames.MappersAgree | worker_agent/registry/scalable.py:316-333 | the two mappers agree on a schema exactly when it is unambiguous |
| TypeNames.PlainIsUnambiguous | worker_agent/registry/mcp_live_client.py:173-185 | in particular when no node has both a primitive type and alternatives, none is a bare name, and none is a list of types without alternatives |
| TypeNames.SeveralTypes | worker_agent/registry/mcp_live_client.py:185 | on a list of types the one mapper answers "any" and the other raises |
| TypeNames.SameTable | worker_agent/registry/mcp_live_client.py:17-22 | both list the same primitive types |
| TypeNames.PrimitiveStrings | worker_agent/registry/scalable.py:316-323 | the strings of the primitive types, in both mappers |
| TypeNames.ListStrings | worker_agent/registry/scalable.py:324-326 | a list is named after its items |
| TypeNames.AlternativeStrings | worker_agent/registry/scalable.py:327-332 | of alternatives the first that is not null counts, and any null makes it optional |
| TypeNames.NullStrings | worker_agent/registry/scalable.py:327-332 | only nulls give an optional anything |
| TypeNames.BadAlternative | worker_agent/registry/scalable.py:329 | a bare name among the alternatives makes both raise |
| UrlTemplate.Fill | worker_agent/tools/dispatcher.py:133-137 | the loop fills all placeholders at once on a well-formed template with harmless values |
| UrlTemplate.FillIsSubstitute | worker_agent/tools/dispatcher.py:200-202 | sequential replacement is simultaneous substitution unless the values have braces of both kinds |
| UrlTemplate.OrderDoesNotMatter | worker_agent/tools/dispatcher.py:200-202 | then the order of the inputs does not matter |
| UrlTemplate.BothBracesMatter | worker_agent/tools/dispatcher.py:200-202 | any value with an opening and any with a closing brace give a call whose result depends on the order |
| UrlTemplate.OrderNeverMattersExactly | worker_agent/tools/dispatcher.py:200-202 | the values for which the order never matters are exactly those without braces of both kinds among them |

## Left out

- LeaseRuns.At: for arbitrary callers each call is one instant; that other calls run between the two statements of `complete` is modelled in WorkerSystem, where ids are distinct and a worker does one thing at a time, and the discipline of the tables is not claimed for two processes that share an id. Concurrent waiting on a row is not modelled.
- WorkerSystem.Next: polling intervals, the semaphore (the loop awaits each step), and `graceful_shutdown` and the signal handler, which act on another worker object.
- WorkerSystem.ExecuteAndComplete: the tool call itself, and the `heartbeat_task` and `run_worker` loops, which do not end, appear as actions of the transition system.
- PatternMining.Rounded: frequencies are exact rationals before they are rounded; the binary fraction nearest to one can fall on the other side of a tie in the fifth digit.
- PlanGraph.TransitiveClosure: the library's own traversal order; only the set of pairs matters to the counts.
- EvolutionJob.Run: the SQL selection of the batch and the caller's commit or rollback; `trigger_evolution_check` only decides when to run.
- AgentGraph.Step: messages, prompts, metrics and the re-execution of a node on resume; a node is one step from entry to reply.
- AgentGraph.CosineNearest: the similarity score is any function.
- AgentRuns.AlwaysInv: a second question on an old thread; the client opens a new thread for each.
- `chain_remediate`: its network calls and its cached-plan shortcut; it appears as a node.
- `think`: prompt building, tool hints and context chunks.
- `write_result` in the persistence repository: writes without a lease check and has no caller shown.
- ChatThread.Handle: formatting of messages, the budget history, and the thinking bubble, whose id is never set.
- ChatSystem.Next: the new session after leaving, which is a thread of its own with an empty log; expiry of the log; failed polls, which change nothing.
- RegistryCache.Lookup: schema, tool list, playbook and intent lookups, tokens and HTTP; a response and its caching are one instant.
- TypeNames.JsonSchemaType: values of `type` that JSON Schema does not allow (numbers, objects).
- SQS and Pub/Sub adapters, session locks, credentials, billing, analytics, other services and the React components: thin or unrelated to the properties above.
