# Verified models of Ymir's protocols

Ymir's agents take Jira issues from Redis queues, backport or inherit fixes in dist-git, and send their traces
to a small trace server. This project models the parts of that system whose correctness is not visible in any
single function, and proves what they promise. `dafny verify dfyconfig.toml` checks everything.

## What is modelled

- **Trace server** (`TraceSpans`, `TraceWalk`, `TraceStore`, `TraceRuns`, `TraceConfluence`, `TraceIndex`,
  `RecentTraces`). Spans arrive in payloads, split, ordered and repeated in any way. The server hands agent
  types down parent links twice (in memory with a visited set, over stored rows without one) and keeps an index
  of issues. A span is what the OTLP extraction yields; ids may be empty; tables are maps and sets with
  insert-or-replace, delete and select semantics. `TraceServer` is the server's state, one method per operation.
- **Span viewer** (`SpanForest`, `ForestStats`). The forest built from a flat list with missing parents and
  possibly cyclic links, and the token totals shown for it.
- **Backport workflow** (`BackportModel`, `BackportProofs`, `BackportRuns`, `BackportRun`, `BackportExamples`). The
  eighteen steps, with agents, builds, git, GitLab and Jira answering anything they may answer. `BackportRun.Run` is
  the workflow object with one method per step, each saying outright where it leads and what it changes;
  `BackportModel` is the same as functions, over which runs, and sequences of runs of one task, are reasoned about.
  `BackportExamples` has runs that reach what can be reached.
- **Backport queue** (`TaskQueue`, `TaskRetries`). Any number of workers, the per-issue lock with its time to live, requeue
  after release, clearing of resolved errors, and shutdown of a worker at any moment.
- **Requeue of error entries** (`Requeue`, `RequeueRuns`, `RequeueProgress`, `RequeueEntry`, `DumpParser`, `DumpLines`, `Utf8`,
  `Text`). The atomic script, any number of clients staging values for it while calls fail and keys expire, and
  the parser that recovers the entry's bytes from the printed list.
- **Git around publishing** (`FixCommit`, `ScratchBranch`, `Footers`, `FooterAmend`, `Attribution`, `Retarget`,
  `RetargetMessage`). The search for the one fix commit in any commit graph, the throwaway branch for builds of an
  existing merge request under every fault pattern, the footer union when a commit is amended, and turning a
  Z-stream fix's message into one for the Y-stream issue.

`Common`, `Sorting` and `Text` hold what several of these share.

Agents, prompts, builds, MCP tools, clocks and the network appear as answers: parameters that may take any value
the caller can get. A datatype `Answer` or `Fault` lists them.

## Results that are not what one would expect

- Unique span ids are neither needed nor enough for agent types to be independent of delivery. What is needed is
  exactly `Coherent`: the in-memory walk matches parent ids across traces, so a parent id naming a span of another
  trace also breaks it (`ForeignParentBreaksConfluence`), as does an empty derived type
  (`EmptyTypeBreaksConfluence`).
- In a database that this server wrote from the start, the backfill of the issue index never adds a row: whenever
  the index is empty, so is every stored issue column (`BackfillAddsNothing`). It matters for databases from before
  the index, which it completes (`LegacyIsIndexed`).
- An agent that reports success without an SRPM ends a run as a success although nothing was built or published
  (`SuccessWithoutMr`, `SuccessWithoutSrpm`); "success" therefore means published, or dry run, or no SRPM.
- Pushing the requeued task after the release protects it only if the release got through. A failing release is
  logged and ignored, and the task is then dropped by the next worker (`FailedReleaseLosesTask`); the exact
  condition is `AlwaysInOnePlace`.
- A worker that is cancelled after its task was completed or requeued pushes its payload back: a second copy, with
  the attempts it was popped with (`LateShutdownDoubles`, `LateShutdownRunsAgain`). `TasksAreConserved` counts these.
- The publication checkpoint and the given-up inheritance live in memory until the task is requeued. A worker that
  is cancelled after the inherited push puts back the payload as popped, and the next run clones and backports again
  (`SecondBackportIffCancelled`, `CancelledPushRestarts`); the same holds for a given-up inheritance
  (`FallbackIffNotCancelled`, `CancelledFallbackRestarts`).
- A modular success is recorded on no list (`ModularLeavesNoEntry`), and a success removes older error entries
  (`ClearedAreResolved`).
- Staging keys can stay without a time to live when SET arrives but neither EXPIRE nor the cleanup does
  (`StagingLeaks`, `StagedForGood`), although the comment at `openshift/scripts/requeue_error.py:259-262` rules that out.
- An entry that is not valid UTF-8 can be listed but never requeued (`RequeueFindsEntry`, `BadByteIsNotStaged`).
- The ancestor check on historic fix commits can never answer no (`HistoricIsInherited`).
- A local scratch branch is left without any cleanup having failed exactly when creating it took effect and still
  raised (`StaysDespiteCleanup`, `BranchRaisedStays`).
- Retargeting a message leaves footers alone that are indented or list items, although these count as footers: the
  result then still resolves the Z-stream key (`RetargetResolves`, `IndentedFooterStays`).
- With a carriage return in the message, footers added by the amend can be lost (`CarriageReturnLosesKey`), and a
  CVE line that also carries issue keys behind another line break loses those (`CveLineLosesKey`); `AmendMessage` has
  the exact condition.

## Model

| member | source | states |
|---|---|---|
| `TraceSpans.EmptyTypeNames` | trace_server/server.py:320-321 | The type derived from a span name is empty for the names `Agent`, `Analyst` and `AnalystAgent` and no others |
| `TraceSpans.AgentTypeIs` | trace_server/server.py:286-321 | A name made of camel-case words and acronyms and ending in `Agent`, `Analyst` or both gives its words in lower case joined by underscores; other names give none |
| `TraceWalk.PropagateAgentTypes` | trace_server/server.py:324-349 | The walk over one payload ends on any parent links, cyclic ones too; a row ends with the type of some typed span above it by id, or with its own when there is none |
| `TraceWalk.PropagateJiraIssues` | trace_server/server.py:364-378 | Every row of a payload ends with all issues its trace carries in that payload |
| `TraceStore.PopKeepsFrontier` | trace_server/server.py:476-483 | Popping a row never meets a row seen before: untyped rows have one parent, so the walk without a visited set cannot go round |
| `TraceStore.WalkBelow` | trace_server/server.py:478-483 | The walk below one typed row terminates without a visited set, and updates no row twice, across all walks of one ingest |
| `TraceStore.StoredUpdates` | trace_server/server.py:454-483 | The stored-row walk emits exactly the untyped rows that have a typed ancestor in their trace, each at most once, each with that ancestor's type |
| `TraceStore.StageRows` | trace_server/server.py:434-440 | Insert-or-replace: the last row of a key in the payload stays, other keys keep their row |
| `TraceStore.TraceServer.Ingest` | trace_server/server.py:428-512 | One payload, state to state: rows replaced, missing types completed in the affected traces, index rows rebuilt and spread over the traces |
| `TraceStore.TraceServer.InitDb` | trace_server/server.py:177-204 | Start-up: exactly the rows older than the cutoff go, with their index rows; no index row dangles, none of a remaining span is lost, and an empty index comes to cover the issue columns |
| `TraceConfluence.ConfluentIffCoherent` | trace_server/server.py:324-349 | The final types depend only on the set of spans delivered, over every split, order and repetition, if and only if every type the id-only walk could hand out is the one of the nearest typed ancestor in the span's own trace |
| `TraceConfluence.CoherentRun` | trace_server/server.py:428-489 | For such a set, after any delivery of it each span has its own type, else that of its nearest typed ancestor through stored parents, else none |
| `TraceConfluence.LocalIsCoherent` | trace_server/server.py:326-333 | What a sender can check is enough: parent ids name spans of the child's trace only, and no name gives an empty type |
| `TraceConfluence.ExactAfterEveryPayload` | trace_server/server.py:428-489 | Under that check the table is exact after every payload, not only at the end |
| `TraceConfluence.EmptyTypeBreaksConfluence` | trace_server/server.py:320-343 | A span named `Agent` below a typed span: the final type depends on the order of delivery |
| `TraceConfluence.ForeignParentBreaksConfluence` | trace_server/server.py:326-333 | A parent id that names a span of another trace: the final type depends on the split |
| `TraceIndex.IngestKeepsIndex` | trace_server/server.py:441-503 | What each payload keeps of the index: no dangling row, only carried issues, every stored span's own issues |
| `TraceIndex.BackfillAddsNothing` | trace_server/server.py:177-200 | In a database that this server wrote from the start, start-up changes no index row of a remaining span: the backfill has nothing to add |
| `TraceIndex.LegacyIsIndexed` | trace_server/server.py:176-192 | In a database from before the index, start-up indexes exactly the issue columns of the remaining rows, and everything that later payloads and restarts keep holds from then on |
| `TraceIndex.IndexSound` | trace_server/server.py:441-503 | Over payloads and restarts in any order: index rows never dangle, name only issues some delivered span of the trace carried, and cover every stored carrier |
| `TraceIndex.IndexIsNaiveScan` | trace_server/server.py:441-503 | Without retention a (trace, issue) pair is indexed if and only if some delivered span of the trace carried the issue itself |
| `TraceIndex.QuerySpans` | trace_server/server.py:574-655 | The unfiltered query returns each selected row once, by start time |
| `TraceIndex.QueryIsNaiveScan` | trace_server/server.py:574-651 | It selects exactly the delivered spans of the traces in which some span carried the issue |
| `TraceRuns.RunExists` | trace_server/server.py:428-512 | Every sequence of payloads has a run, so statements about all runs are about something |
| `RecentTraces.MergeRecent` | trace_server/server.py:676-792 | Merging the separately limited completed and in-progress rows is a limit over the completed rows and the in-progress rows that are not skipped: at most k, and nothing left out starts later than a row returned; over all in-progress rows too, if none is skipped or their limit cut none |
| `RecentTraces.FitBefore` | trace_server/server.py:792 | Why the second limit is enough: rows that all start later than a sorted row stand before it |
| `SpanForest.Placeholders` | trace_server/static/app.js:895-915 | Exactly one placeholder per missing parent id, in the order the ids are named in |
| `SpanForest.PlaceholderIs` | trace_server/static/app.js:895-915 | It has the trace of the first span naming it and the earliest start of all that do |
| `SpanForest.NestPlaceholders` | trace_server/static/app.js:916-931 | Each trace with placeholders has exactly one root among them: it starts no later than any other, the first of those that start with it, and all others hang directly below it |
| `SpanForest.LinkNodes` | trace_server/static/app.js:948-966 | Every node is pushed once, onto the children of its parent or onto the roots |
| `SpanForest.BuildSpanTree` | trace_server/static/app.js:889-973 | The nodes are the spans below their recorded parents plus the placeholders, nested by trace; each is once among the children of its parent or among the roots, both ordered by start time, and nodes that start at once stay in the order of the list |
| `SpanForest.NodeOrder` | trace_server/static/app.js:895-966 | Placeholder ids and span ids never meet |
| `ForestStats.ForestIffNotCaught` | trace_server/static/app.js:957-966 | A node hangs below a root exactly when its parent chain is not caught in a cycle |
| `ForestStats.ClimbsShort` | trace_server/static/app.js:957-966 | A chain that ends is shorter than the number of nodes: the recursion from the roots is bounded |
| `ForestStats.ForestSeenOnce` | trace_server/static/app.js:957-973 | A walk from the roots meets every node not caught in a cycle exactly once and no other |
| `ForestStats.TreeLlmStats` | trace_server/static/app.js:975-1000 | The recursive totals of a node end, and are the sum over the nodes a walk below it meets |
| `ForestStats.AggregateLlmStats` | trace_server/static/app.js:145-165 | The totals of the flat list are the sum over its LLM spans |
| `ForestStats.TotalGrows` | trace_server/static/app.js:145-165 | One more span adds its four counters if it is an LLM call, and otherwise nothing |
| `ForestStats.TokensConserved` | trace_server/static/app.js:145-165 | The tree totals over the roots plus those of spans caught in cycles are the totals of the list; for acyclic input both figures agree |
| `ForestStats.BothTotals` | trace_server/static/app.js:889-999 | From a list of spans to both figures: for acyclic input they are equal, otherwise they differ by the spans caught in cycles |
| `BackportRun.Run.ResumeStep` | ymir/agents/backport_agent.py:906-929 | A retry with a checkpoint leads to the merge request if and only if the branch could be read and still is the checkpoint; it changes neither clone nor remote nor budget |
| `BackportRun.Run.ForkStep` | ymir/agents/backport_agent.py:931-980 | Every clone is clean, without bumps and without an attempt's leftovers; the source is evaluated if and only if there is one and inheritance was not given up; fallback, checkpoint and budget survive |
| `BackportRun.Run.EvaluateStep` | ymir/agents/backport_agent.py:1081-1313 | Each evaluation counts once; a normal backport follows on the same clone only when that is reset to its base and the fallback is noted; an adapted source brings exactly one bump |
| `BackportRun.Run.AbandonInheritance` | ymir/agents/backport_agent.py:1027-1067 | A normal backport follows on this clone if and only if the cleanup was proven, and then on a clean tree with inheritance off in the metadata too; an unproven one costs the one retry or ends inheritance |
| `BackportRun.Run.RunAgentStep` | ymir/agents/backport_agent.py:1315-1381 | The agent adds its commits and decides success; bumps, base, update branch, merge requests and budget stay |
| `BackportRun.Run.FixStep` | ymir/agents/backport_agent.py:1383-1477 | Every answer has its exact next step: fixing leads on only by using up an attempt, never beyond the limit, and comes back only while one is left; bumps and build budget stay |
| `BackportRun.Run.ValidateInheritedStep` | ymir/agents/backport_agent.py:1479-1542 | Push and checkpoint are reached only through a successful build of the local commit; a repeated build has fewer attempts left; nothing is published |
| `BackportRun.Run.UpdateReleaseStep` | ymir/agents/backport_agent.py:1544-1566 | If the flag says whether this clone was bumped, exactly one bump is there when changes are staged; otherwise the run has failed |
| `BackportRun.Run.StageStep` | ymir/agents/backport_agent.py:1568-1613 | Only logged work is committed, modular on the modular path and built on the other; a rejected inherited patch falls back to a clean clone with inheritance off |
| `BackportRun.Run.CommitInheritedStep` | ymir/agents/backport_agent.py:1725-1737 | The commit just made is the one remembered, one above what was there, and is not pushed; otherwise the attempt is given up |
| `BackportRun.Run.PushInheritedStep` | ymir/agents/backport_agent.py:1739-1775 | However the push ends, the metadata has the checkpoint; a push that raised leads on only if the branch was read as the commit; the branch moves only to HEAD |
| `BackportRun.Run.OpenInheritedStep` | ymir/agents/backport_agent.py:1777-1840 | At most one merge request, for the branch as it is; a failure leaves a run that is to be resumed |
| `BackportRun.Run.CommitPushAndOpenMrStep` | ymir/agents/backport_agent.py:1842-1868 | Branch and merge request get the commit just made or nothing; nothing at all without a commit or in a dry run |
| `BackportRun.Run.CommitPushAndBuildStep` | ymir/agents/backport_agent.py:1870-1991 | A build that passes or times out is published outright: branch and one merge request call at the new commit, then the consolidation job; an infrastructure error ends the run, a failed build costs one attempt and leads to a fix, a fresh clone or the end; without SRPM or commit nothing moves |
| `BackportRun.Run.CommentStep` | ymir/agents/backport_agent.py:2035-2086 | A failed comment fails the run only if no inherited commit was pushed and a retry makes sense |
| `BackportRun.Run.Take` | ymir/agents/backport_agent.py:2088-2105 | Any step with any answer it may get keeps the invariant and makes progress, and is the step function that whole runs are reasoned about with |
| `BackportRun.Run.RunWorkflow` | ymir/agents/backport_agent.py:2107-2130 | The loop over the steps ends, at END or in an exception, for every behaviour of agents, builds, git and services, and keeps the invariant |
| `BackportProofs.StepKeeps` | ymir/agents/backport_agent.py:888-2086 | Every step keeps the invariant of all runs, whatever answer it gets |
| `BackportProofs.AbandonKeeps` | ymir/agents/backport_agent.py:1027-1067 | Every way out of an inheritance attempt leads to a state the normal path may start from |
| `BackportProofs.BuildKeeps` | ymir/agents/backport_agent.py:1870-1991 | The build step publishes only a commit that passed, and uses up an attempt otherwise |
| `BackportProofs.ValidateInheritedKeeps` | ymir/agents/backport_agent.py:1479-1542 | A checkpoint is only made of a validated commit |
| `BackportProofs.PushInheritedKeeps` | ymir/agents/backport_agent.py:1739-1775 | A merge request is only next when the branch is at the checkpoint |
| `BackportProofs.StepDecreases` | ymir/agents/backport_agent.py:888-2086 | Every step makes progress in a lexicographic measure over inheritance disabled, cleanup retried, attempts left, position and inner retries |
| `BackportRuns.RunIsBounded` | ymir/agents/backport_agent.py:931-1991 | No run is longer than a number fixed by the two limits, whatever the answers |
| `BackportRuns.NeverStuck` | ymir/agents/backport_agent.py:2088-2105 | A run stops only at its end |
| `BackportRuns.TriesAreBounded` | ymir/agents/backport_agent.py:1870-1991 | At most max(1, max_build_attempts) normal builds and two inheritance evaluations in a run |
| `BackportRuns.ReleaseBumpedOnce` | ymir/agents/backport_agent.py:1544-1566 | At every commit the clone carries exactly one Release bump; the inherited and the built commit are one commit above the base |
| `BackportRuns.OnlyValidatedIsPublished` | ymir/agents/backport_agent.py:1895-1969 | For non-modular issues the update branch is at a validated commit at every merge request call of a run |
| `BackportRuns.LifePublishesValidated` | ymir/agents/backport_agent.py:1739-1969 | The same over all runs of a task |
| `BackportRuns.SuccessWithoutMr` | ymir/agents/backport_agent.py:1870-1893 | Of the successful runs outside dry runs, exactly those with an SRPM published |
| `BackportExamples.NormalRunPublishes` | ymir/agents/backport_agent.py:1870-2086 | A run of the normal path to its end: built, pushed, one merge request for the built commit, a success with SRPM |
| `BackportExamples.ModularRunPublishes` | ymir/agents/backport_agent.py:1842-1868 | A modular run publishes without a build |
| `BackportExamples.FixedRunPublishes` | ymir/agents/backport_agent.py:1383-1991 | A build fails, is fixed on the same clone, squashed into one commit, built again and published |
| `BackportExamples.InheritedRunPublishes` | ymir/agents/backport_agent.py:1081-1840 | An inherited commit is adapted, built, pushed and gets its merge request |
| `BackportExamples.ResumedRunPublishes` | ymir/agents/backport_agent.py:906-929 | A retry with a checkpoint opens the merge request its predecessor did not get to, and builds nothing |
| `BackportExamples.SuccessWithoutSrpm` | ymir/agents/backport_agent.py:1870-1893 | A run in which the agent reports success without an SRPM: it ends as a success and nothing was published |
| `BackportRuns.PublishingToTheEnd` | ymir/agents/backport_agent.py:1739-1840 | From the inherited push on, the rest of the run clones nothing, runs no agent, builds nothing and publishes only that commit |
| `BackportRuns.NoSecondBackport` | ymir/agents/backport_agent.py:766-804 | The same for all later runs of the task, provided the run that pushed was not cancelled: every retry resumes or fails |
| `BackportRuns.SecondBackportIffCancelled` | ymir/common/base_utils.py:264-294 | All later runs only resume or fail if and only if the run that pushed was not cancelled; after a cancelled one the next run clones first thing |
| `BackportExamples.CancelledPushRestarts` | ymir/agents/backport_agent.py:1739-1775 | Two runs: the first pushes and is cancelled, the second clones |
| `BackportRuns.FallbackIsDurable` | ymir/agents/backport_agent.py:699-708 | Once a run that is not cancelled gave up inheritance, neither it nor any later run of the task evaluates a source |
| `BackportRuns.FallbackIffNotCancelled` | ymir/common/base_utils.py:264-294 | The run after the one that gave up starts without inheritance if and only if that one was not cancelled |
| `BackportExamples.CancelledFallbackRestarts` | ymir/common/base_utils.py:264-294 | Two runs: the first gives up inheritance and is cancelled, the second evaluates the source again |
| `BackportRuns.RunsAreBounded` | ymir/agents/backport_agent.py:2279-2308 | A task runs at most max(1, max_retries) times, not counting cancelled runs |
| `BackportRuns.SettleIs` | ymir/agents/backport_agent.py:766-804 | A finished run is retried if and only if it crashed, had no result or failed, the failure allows it, and an attempt is left; the retry has one attempt more and the checkpoint exactly when only the publication is left; completed exactly on success |
| `TaskQueue.StepConserves` | ymir/agents/backport_agent.py:2207-2222 | What one step of the workers, Redis, the clock or a shutdown does to tasks and list entries: only dropping, doubling, entering a list, a modular success and clearing change them |
| `TaskQueue.TasksAreConserved` | ymir/agents/backport_agent.py:2207-2410 | Over every history and any number of workers: live tasks, dropped payloads, entries made and modular successes add up to the tasks at the start and those doubled; entries left and cleared add up to those at the start and those made |
| `TaskQueue.DropIffStale` | ymir/agents/backport_agent.py:2212-2218 | With one live task, a payload is dropped as a duplicate exactly when the lock it finds was left behind |
| `TaskQueue.AlwaysInOnePlace` | ymir/agents/backport_agent.py:2207-2222 | With one live task, any old entries and any events, it is in exactly one of queue, worker, completed and error list all the time if and only if no worker ever tries a lock that was left behind, no modular success ends it, and no worker is shut down after it was finished or pushed |
| `TaskQueue.ReleasedIsNeverStale` | ymir/common/issue_lock.py:130-170 | A lock is left behind only by a release that did not get through or an acquisition nobody waited for |
| `TaskQueue.NeverLost` | ymir/agents/backport_agent.py:2207-2222 | If no lock of the issue is ever left behind, a task is never lost, whatever workers are shut down: at least one copy is live, on a list, or ended as a modular success |
| `TaskQueue.NeverLostNorDoubled` | ymir/agents/backport_agent.py:2207-2222 | And exactly one, if no worker is shut down after the task was finished or pushed |
| `TaskQueue.FailedReleaseLosesTask` | ymir/common/issue_lock.py:152-170 | A release that fails is only logged: the requeued task is then dropped as a duplicate and lost |
| `TaskQueue.ModularLeavesNoEntry` | ymir/agents/backport_agent.py:2365-2376 | A modular success leaves the task on no list although every release got through |
| `TaskQueue.LateShutdownDoubles` | ymir/common/base_utils.py:264-294 | A worker shut down while it releases the lock of a completed task: the task is queued again and is on the completed list |
| `TaskQueue.ClearedAreResolved` | ymir/common/error_list.py:46-68 | A success clears, of the error entries gone through, exactly those of its issue, branch and queue, whichever twin |
| `TaskQueue.ClearedStep` | ymir/common/error_list.py:46-68 | Entry by entry from the newest: what is not cleared stays in its order, and nothing beyond the limit is looked at |
| `TaskQueue.RunAtMostMaxRetries` | ymir/agents/backport_agent.py:2279-2308 | The only task of an issue is run to an outcome at most max(1, max_retries) times, if no worker of it is shut down between an outcome and the requeue; other shutdowns do not count |
| `TaskQueue.LateShutdownRunsAgain` | ymir/common/base_utils.py:264-294 | A task that may run once, and whose worker is shut down after its failure was recorded, is run to an outcome twice |
| `TaskRetries.PopServes` | ymir/common/base_utils.py:203-240 | A worker gets the last payload of the line in which the priority queue comes after the normal one |
| `TaskRetries.LockTaken` | ymir/common/issue_lock.py:130-157 | The lock goes to the worker that finds it free; any other drops its payload; other issues are not touched |
| `TaskRetries.FinishRecords` | ymir/agents/backport_agent.py:2310-2410 | What a finished run records: completed on a non-modular success, listed on a failure that is not retried, and otherwise kept for the requeue with one attempt more, still under the lock |
| `TaskRetries.ReleaseFrees` | ymir/common/issue_lock.py:63-170 | A release that gets through frees the lock if it is the worker's own, and never another's |
| `TaskRetries.PushQueues` | ymir/agents/backport_agent.py:2207-2222 | A retry joins the queue of its kind, the priority queue if the user triggered it, behind everything there |
| `TaskRetries.ShutdownReturns` | ymir/common/base_utils.py:264-294 | A cancelled worker's payload is the next to be popped from its own queue, and its lock is gone if the release got through |
| `TaskRetries.RetryIsQueued` | ymir/agents/backport_agent.py:2207-2222 | In any history a worker that finished a run pushes only if the run is retried, and then the payload with one attempt more joins its own queue |
| `TaskRetries.RetryIsNotForgotten` | ymir/agents/backport_agent.py:2207-2222 | Until that push or a shutdown, the retry is in the worker's hands and nothing others do keeps the worker from releasing and pushing |
| `TaskRetries.OneWorkerPerIssue` | ymir/common/issue_lock.py:130-170 | As long as the issue's lock does not expire, at most one worker is on the issue, and it owns the lock, whatever is cancelled, lost or left behind |
| `TaskRetries.ExpiredLockLetsIn` | ymir/common/issue_lock.py:141-147 | A lock that expires under its owner lets a second worker in |
| `TaskRetries.FailsThenSucceeds` | ymir/agents/backport_agent.py:2279-2410 | An ordinary failed run goes back to its queue with one attempt more; the second attempt succeeds, clears the older error entry and is recorded |
| `Requeue.ScriptIsAtomic` | openshift/scripts/requeue_error.py:224-256 | What each result means and when it happens: 1 moves one copy of the entry off and the task on; 0 and an error leave every list alone; -1 leaves every list with the same elements |
| `Requeue.Valkey.Lrem` | openshift/scripts/requeue_error.py:244 | LREM removes the first occurrence from the head, errs on a string key, and drops an empty list |
| `Requeue.Valkey.AtomicRequeue` | openshift/scripts/requeue_error.py:238-256 | The script, command by command, does what the one-go description says |
| `RequeueRuns.HistoryInv` | openshift/scripts/requeue_error.py:266-312 | In every history a staging key holds its own value or nothing, and a reported result is the script's |
| `RequeueRuns.CopiesAreConserved` | openshift/scripts/requeue_error.py:238-312 | Under every interleaving, expiry and failing call: copies on a list, plus successful requeues off it, plus what others took, equal what was there plus what came |
| `RequeueRuns.OneInvocationWins` | openshift/scripts/requeue_error.py:224-236 | Of several invocations for an entry that is there once, at most one succeeds |
| `RequeueRuns.ExactlyOneWins` | openshift/scripts/requeue_error.py:224-312 | Once one of them ran its script with both values staged, on lists that can be changed, exactly one succeeded, unless somebody else took the entry |
| `RequeueRuns.ScriptDecides` | openshift/scripts/requeue_error.py:238-256 | Run with both values staged, the script answers 1 if and only if the entry is there and the target can take it |
| `RequeueRuns.ReportedIsTrue` | openshift/scripts/requeue_error.py:297-312 | A result that is printed is what the script did; that an invocation gets as far as the script is `FifthCallDecides` |
| `RequeueProgress.WhenItExits` | openshift/scripts/requeue_error.py:297-312 | In any history an invocation exits with its fifth call if all five are reported to have succeeded, and otherwise without a result with the call after the first failure, the cleanup |
| `RequeueProgress.FifthCallDecides` | openshift/scripts/requeue_error.py:297-312 | Five calls that come through, with no expiry before the last, run the script on the staged values: 1 and the entry became the task if it was there, 0 if not, -1 if the target is no list, no result if the source is none |
| `RequeueProgress.FailureCleansUp` | openshift/scripts/requeue_error.py:297-311 | The call after the first failure is the cleanup: no result, both keys gone if it arrives, and the script never ran unless it was the call that failed |
| `RequeueProgress.MovesTheEntry` | openshift/scripts/requeue_error.py:297-312 | From any start with the entry there and a target that is a list, there is a history in which one invocation moves it |
| `RequeueRuns.StagingLeaks` | openshift/scripts/requeue_error.py:259-277 | A staging key stays without a time to live exactly when its SET arrived, its EXPIRE did not, and neither script nor cleanup deleted it; the comment's guarantee leaves that case out |
| `RequeueRuns.StagedForGood` | openshift/scripts/requeue_error.py:266-277 | An invocation whose SET arrives and whose EXPIRE and cleanup do not: the key stays |
| `RequeueRuns.QueuedTask.Prepare` | openshift/scripts/requeue_error.py:315-320 | Attempts are reset and the target is the priority twin of the source |
| `RequeueEntry.FindEntry` | openshift/scripts/requeue_error.py:216-221 | The first element with the id, or none if no element has it |
| `RequeueEntry.StagedIsStored` | openshift/scripts/requeue_error.py:266-269 | The staged value is the stored bytes if and only if they are valid UTF-8 |
| `RequeueEntry.RequeueFindsEntry` | openshift/scripts/requeue_error.py:266-312 | An entry that is still there is found by the script if and only if it is valid UTF-8 |
| `RequeueEntry.BadByteIsNotStaged` | openshift/scripts/requeue_error.py:266-269 | The entry with the single byte 0xFF is staged as something else |
| `Utf8.DecodeEncode` | openshift/scripts/error_list.py:112 | Encoding loses nothing and is always valid (section 3 of RFC 3629) |
| `Utf8.EncodeDecode` | openshift/scripts/error_list.py:127 | Decoding with replacement and encoding again is the identity exactly on valid UTF-8 |
| `Utf8.MalformedIsReplaced` | openshift/scripts/error_list.py:127 | Where no character begins, the longest run of bytes that could have begun one, and at least one byte, reads as a single U+FFFD |
| `DumpParser.UnescapeRediscli` | openshift/scripts/error_list.py:90-127 | The scan with its index computes the recursive unescaping, decoded |
| `DumpParser.UnescapeEscape` | openshift/scripts/error_list.py:90-127 | Unescaping what valkey-cli escaped gives the bytes back, whatever they are |
| `DumpParser.RareEscapes` | openshift/scripts/error_list.py:90-127 | Escapes that valkey-cli never prints: \v and \f are read, and a backslash at the end stands for itself |
| `DumpParser.OtherCharacters` | openshift/scripts/error_list.py:90-127 | Any other character stands for itself, with or without a backslash before it |
| `DumpParser.HexIsByte` | openshift/scripts/error_list.py:90-127 | Two hexadecimal digits in either case are a byte |
| `DumpLines.QuotedIsMatch` | openshift/scripts/error_list.py:41 | The line pattern matches a line with a group exactly when the scan finds that group |
| `DumpLines.ToElements` | openshift/scripts/error_list.py:130-147 | Framed text yields one element per matching line; anything else goes to the raw reading |
| `DumpLines.DumpRoundTrip` | openshift/scripts/error_list.py:130-147 | For every list of byte strings the printed dump reads back element by element; only the empty list is not read as framed |
| `FixCommit.FindZStreamFixCommit` | ymir/agents/ystream_inherit.py:212-282 | The loops over listed and historic commits answer as the result relation says |
| `FixCommit.Matches` | ymir/agents/ystream_inherit.py:234-245 | The matches are the listed commits that resolve the key; it is an error exactly when one of them resolves more |
| `FixCommit.ResultIsSound` | ymir/agents/ystream_inherit.py:212-282 | A returned commit is the only one the Z-stream has over the Y-stream that resolves the key, whichever merge base git names; "already inherited" names a commit both have |
| `FixCommit.ResultIsExact` | ymir/agents/ystream_inherit.py:212-282 | With git answering, exactly which commit makes the search end how |
| `FixCommit.HistoricIsInherited` | ymir/agents/ystream_inherit.py:247-266 | A fix outside the range is in the Y-stream: the ancestor check there never fails |
| `ScratchBranch.Checkout.BuildRef` | ymir/agents/merge_request_agent.py:268-289 | The commands up to the restored checkout under every fault pattern |
| `ScratchBranch.Checkout.PrepareKonfluxMrRef` | ymir/agents/merge_request_agent.py:253-305 | For every fault pattern: where HEAD ends, which scratch branches are left in the clone and on the fork; a local one is also left when creating it took effect and still raised |
| `ScratchBranch.StaysDespiteCleanup` | ymir/agents/merge_request_agent.py:290-305 | Where deleting it works, a scratch branch stays in the clone if and only if creating it took effect and still raised |
| `ScratchBranch.BranchRaisedStays` | ymir/agents/merge_request_agent.py:290-305 | One such fault, with every cleanup command working |
| `ScratchBranch.OneFaultIsRepaired` | ymir/agents/merge_request_agent.py:245-305 | A single failing command is repaired: HEAD is restored and nothing stays on the fork; a local branch stays in exactly two cases |
| `ScratchBranch.Checkout.RunBuildAgent` | ymir/agents/merge_request_agent.py:307-360 | The live branch stays; what is built is the pushed content with Konflux and the named SRPM with Copr; HEAD moves only where restoring it failed; which scratch branches stay in the clone and on the fork, whatever the build does; only success and timeout lead on |
| `ScratchBranch.Checkout.CommitAndPushLive` | ymir/agents/merge_request_agent.py:378-398 | The live branch moves to the new commit only here, and not in a dry run |
| `ScratchBranch.Checkout.RunWorkflow` | ymir/agents/merge_request_agent.py:245-398 | The live branch moves to a new commit of what the agent made in the last round if and only if that round's build passed or timed out and, outside a dry run, staging and commit succeeded and the push took effect; the builds are exactly those of the rounds, Konflux building the very content that is pushed; when it ends how; which scratch branches stay |
| `Footers.TokensSplit` | ymir/agents/mr_consolidation_agent.py:201-226 | Issue keys and CVE ids never reach over a character that cannot be part of one |
| `Footers.TokenIs` | ymir/agents/mr_consolidation_agent.py:201-226 | An issue key is `RHEL-` and at least one digit; a CVE id is `CVE-`, four digits, a hyphen and at least four digits |
| `Footers.FooterHeads` | ymir/agents/mr_consolidation_agent.py:201-226 | A line counts if, after blanks, it begins with `CVE:`, or with `Resolves:` or `Related:` |
| `Footers.AppendToLine` | ymir/agents/mr_consolidation_agent.py:1386-1398 | Appending a list to a line: a footer line gains its keys, another line nothing |
| `FooterAmend.ExtractFooters` | ymir/agents/mr_consolidation_agent.py:201-226 | The extractors return what the footer lines of the text hold, in order and without duplicates |
| `FooterAmend.ExtractedUnsplit` | ymir/agents/mr_consolidation_agent.py:1360-1398 | Footers never reach over a newline, whatever other line breaks the text has |
| `FooterAmend.AddCves` | ymir/agents/mr_consolidation_agent.py:1374-1384 | CVE ids are joined into the message's first CVE line, in order, and no other line changes; issue keys survive if and only if the old line carried none of its own |
| `FooterAmend.AddKeys` | ymir/agents/mr_consolidation_agent.py:1386-1398 | New keys are added to the end of the first Resolves line or to a new last line, and no other line changes |
| `FooterAmend.AmendMessage` | ymir/agents/mr_consolidation_agent.py:1360-1398 | The amended message holds both sets of CVE ids if it had a CVE line; it holds both sets of issue keys if and only if the CVE line loses none and the Resolves line can take more; all other lines stay |
| `FooterAmend.PlainMessagesJoin` | ymir/agents/mr_consolidation_agent.py:1360-1398 | Both conditions hold for every message whose only line break is a newline |
| `FooterAmend.CarriageReturnLosesKey` | ymir/agents/mr_consolidation_agent.py:1386-1398 | With a carriage return in the Resolves line the new key is lost |
| `FooterAmend.CveLineLosesKey` | ymir/agents/mr_consolidation_agent.py:1374-1384 | With a carriage return in the CVE line and a Resolves footer behind it, that footer is lost |
| `Attribution.EnsureSingleAttribution` | ymir/agents/ystream_inherit.py:623-637 | The result is made of the normal lines: repeats of the attribution dropped, blanks trimmed at the end, one added if there was none |
| `Attribution.NormalHasOne` | ymir/agents/ystream_inherit.py:623-637 | Whatever the message, the result has exactly one Ymir attribution |
| `Attribution.OthersStay` | ymir/agents/ystream_inherit.py:623-637 | All other lines stay, in order; only blank lines and blanks at the end of the message go; what is added, if there was no attribution, is one, after an empty line unless the message is blank |
| `Attribution.AttributionIs` | ymir/agents/ystream_inherit.py:31 | A line is an attribution if and only if it is `Assisted-by:` and `Ymir`, in any case, with nothing but blanks around them |
| `Attribution.FirstStays` | ymir/agents/ystream_inherit.py:623-637 | The attribution that stays is the first one, in its place |
| `Attribution.EnsuredTwice` | ymir/agents/ystream_inherit.py:623-637 | Normalising a normalised message changes nothing, character for character |
| `Retarget.KeyFound` | ymir/agents/ystream_inherit.py:30 | The key pattern finds a key followed by a word boundary, and no other key inside it |
| `Retarget.CleanSubstitute` | ymir/agents/ystream_inherit.py:604-620 | A text whose only key is the Z-stream one, standing on its own among words and punctuation, comes to hold the Y-stream key and no other |
| `Retarget.SubstituteIs` | ymir/agents/ystream_inherit.py:606-612 | Text without an occurrence of the key between characters that cannot extend it stays; the first such occurrence, in any case, is replaced, and the search goes on behind it |
| `RetargetMessage.FooterIs` | ymir/agents/constants.py:52-55 | A Resolves footer is the tag in any case behind blanks and perhaps a list mark, and nothing else |
| `RetargetMessage.BlankFooterTakesNext` | ymir/agents/constants.py:52-55 | The value of a footer that is blank on its line is the next line that is not blank, even if that is a footer itself |
| `RetargetMessage.ResolvedByLines` | ymir/agents/ystream_inherit.py:183-188 | With no footer value on the next line, a message resolves exactly the keys its single footer lines name |
| `RetargetMessage.RewriteCommitMessage` | ymir/agents/ystream_inherit.py:604-620 | The lines with the Z-stream key replaced in footers, and a Resolves footer if none names the Y-stream key |
| `RetargetMessage.NewLineKeys` | ymir/agents/ystream_inherit.py:609-617 | A footer stays a footer; it then names the Y-stream key alone if it is flush, the Z-stream key alone if not |
| `RetargetMessage.NewLineIs` | ymir/agents/ystream_inherit.py:609-616 | Only text behind `Resolves:` or `Related:` at the very front of a line, in any case, is rewritten |
| `RetargetMessage.RelatedIsRetargeted` | ymir/agents/ystream_inherit.py:609-616 | A flush Related footer that names the Z-stream key alone names the Y-stream key alone afterwards, and does not count as one that resolves it |
| `RetargetMessage.RetargetResolves` | ymir/agents/ystream_inherit.py:604-620 | If the footers name only the Z-stream key, each on its line, the new message resolves the Y-stream key, and no other if and only if every footer is flush (or the keys are the same); lines that are no footers stay in place |
| `RetargetMessage.IndentedFooterStays` | ymir/agents/ystream_inherit.py:610 | For any two keys, an indented footer keeps the old key in the new message |

## Left out

- HTTP, gzip and protobuf decoding, id normalisation, authentication, logging: input and output around the modelled parts.
- SQL text, SQLite and chunking by the variable limit: tables are maps and sets, and chunks cover all trace ids.
- The jira_issue column is a set of issues, not a comma-joined string; workflow names, attributes, end times and status codes are not modelled.
- Filtered span queries (by agent type or name, last n): they depend on which spans were linked when they arrived.
- Row selection and workflow filters of the recent-traces query: its two row lists are given.
- Node names in the viewer, DOM rendering and polling: display only. Ids there are numbers, 0 for the empty id.
- Order of the roots in the in-memory walk, and of rows with equal start times in queries: any order is allowed.
- What agents, builds, Jira, GitLab and Brew do inside: they answer anything of their type. Agents are taken not to touch the Release field or the update branch during a run; between runs the branch may move.
- The checkpoint record is reduced to its commit, and metadata to what steers a retry.
- Fields of an inheritance attempt that the next clone overwrites are not tracked after a failed cleanup.
- Redis and Jira calls of the task loop other than the lock release and the clearing of errors succeed; a failing LPUSH or label update would lose a task outright.
- Killing a process between steps: a shutdown that the task loop sees is modelled, a lost process is not.
- Heartbeats: a lock may expire at any moment instead.
- Entries of the completed and error lists keep the task as popped, not results, error texts or incremented attempts.
- Decimal digits and letter case outside ASCII in regular expressions and in int(); every other character outside ASCII but blanks counts as a word character in issue keys.
- Backslashes in the Y-stream key, which the substitution would read as group references; issue keys have none.
- The raw (unframed) reading of a dump and JSON parsing are parameters.
- Listing order of git log only decides between historic fixes; commit messages are reduced to the keys they resolve.
- Merge queue internals, rebase, rebuild and triage workflows, sibling barriers, deployment and command line.
