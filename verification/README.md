# Flowntier: a verified model of its core logic

This project models, in Dafny, the parts of Flowntier where a mistake would be hard to see, and
proves what they promise on every input, every reply of a model or tool, and every run.

* **Workflow**. A plan's tasks are split into stages by their dependencies (`Staging`,
  `StagingTheorems`, `StagingUniqueness`, `StagingLaws`, `DependencyCycles`). The stages run one after
  the other, and later workers see the outcomes of earlier ones (`Develop`). Plan documents of three
  planning rounds are merged (`PlanMerge`, `PlanIds`). The eight phases run with a bounded repair loop
  between development and final review (`Workflow`, `WorkflowTheorems`, `WorkflowAgents`,
  `ReviewRules`). Every agent run is tried on a list of candidate models (`Candidates`,
  `FallbackLaws`); each attempt is received until it is done, cancelled or timed out (`AgentRuns`),
  and what it sends goes out on the workflow's channel between the orchestrator's own announcements
  (`AgentReports`, `WorkflowStream`, `WorkflowInstances`).
* **Agent loop**. A chat history grows by assistant turns and tool results and is compacted to a token
  budget before every request (`Context`, `TokenEstimates`, `CompactionTheorems`, `ToolPairing`); a
  check ends runs that repeat the same failing call (`AgentLoop`, `StreamLaws`, `AgentTheorems`,
  `RunLaws`).
* **Calendar** (`Calendar`, `Timestamps`). Dates from day numbers by a closed formula, and the
  timestamps made from them.
* **Requests** (`Routes`, `RouteCompleteness`, `Queries`, `RequestLaws`, `TreeHandler`). Greedy matching
  of request paths against registered patterns; percent encoding, query building, query parsing, and
  how one handler reads the parsed query.
* **Paths** (`WorkspacePaths`, `PathTexts`). Path normalisation, on components and on the texts they
  are read from, and a workspace that resolves, relativizes and contains paths.

`Text` holds the string operations they share, and `TextLaws` says what trimming and searching give.

Code that works step by step is a method with the loops of the original, proved against a
specification (a function or a predicate); the theorems are lemmas about that specification. Where a
specification is a predicate, a uniqueness lemma shows that it admits one result only. The functions
the specifications rest on are pinned by laws of their own: what they give on a concatenation, on a
single element, and when a test holds. Providers, tools, agents and the cancellation token are
arbitrary functions, so every statement holds for any behaviour they could have.

Check the project with `dafny verify dfyconfig.toml`.

## What the proofs show about the code

Some promises do not hold for all inputs. For these the code is modelled as it is and the exact
condition is proved.

* Compacting a history twice is compacting it once, except when the system messages alone are over
  budget, all other messages cost nothing, and they start with a tool result and hold a second block
  (`CompactIsIdempotentIff`, `CompactingTwiceCanDropMore`). It holds whenever the first message that
  is not a system message is not a tool result, so on every paired history
  (`CompactIsIdempotentWithoutOrphans`, `PairedHistoriesCompactOnce`).
* The route scan finds a substitution whenever there is one iff the pattern has no literal between
  two `{name+}` segments (`ScanIsCompleteIff`); `{a+}/x/{b+}` misses `p/x/q/r`.
* Decoding an encoded query value gives it back iff it is ASCII; otherwise it yields one character
  per UTF-8 byte (`DecodingUndoesEncodingIff`), as for `é` (`AccentIsReadAsTwoCharacters`).
* The tree handler expects numbers and the query brings texts, so it lists with its default depth and
  number of entries whatever the caller asks for. It uses the depth asked for iff that is left out or
  2, the number of entries iff that is left out or 200, and the path iff it is ASCII
  (`TreeQueryIsHonouredIff`); depth 5 is read as 2 (`FiveLevelsAreReadAsTwo`).
* A relative path that never climbs above the root resolves inside the workspace, except that a root
  which normalises to `.` only contains itself (`StayingPathsResolveInside`). That is the default
  root (`DefaultWorkspaceContainsOnlyItsRoot`). Any relative path resolves inside iff it goes down
  again by the names of the root that it climbed out of (`ResolvesInsideIff`).
* Normalising a path slices its text at bytes 4 and 8 to look for a verbatim prefix, which panics iff
  a character lies across one of them (`StripVerbatim`); so a file whose name is two characters of
  three bytes cannot be resolved in the default workspace (`TwoCharactersPanic`). Texts that are not
  cut and have no verbatim prefix are resolved and contained as their components are
  (`ResolvesLikeComponents`, `ContainsLikeComponents`).
* Normalising twice is normalising once iff the normal form can be sliced and does not start with a
  verbatim prefix again (`NormalizingTwiceIff`); two prefixes take two passes (`TwoPrefixes`).
* Phase 5 cuts the text of a worker without a summary at byte 300, which panics inside a character and
  ends the workflow's task. A run that passes the pre-flight check reaches the delivery and sends its
  terminal event iff no outcome collected in a development is cut so (`DeliversIff`,
  `TerminalEventIsSentIff`), and Phase 5 panics iff a stage that no cancellation precedes holds such an
  outcome (`PanicIff`). That takes a worker whose last attempt timed out, or whose channel closed
  early, behind a text with a character across that byte (`CutSplitsCharacterIff`). For 299 letters and
  a character of three bytes no terminal event follows (`NoTerminalEvent`).
* The last event of any other run is the done event that follows from the final verdicts, but it is
  not the only one: every attempt of an agent that is cancelled while it is received, or times out,
  adds a done event under the workflow's id. There is exactly one iff there is no such attempt
  (`DoneEventsOfRun`); a delivery that times out gives two (`TwoDoneEvents`).
* When Phase 5 is cancelled before a stage, entry `p` of the results belongs to task `p` for all
  entries iff the stages before it hold no task without all tasks listed before it
  (`ResultsAlignIff`). No cancellation can misalign the entries iff stage numbers never fall from one
  task of the plan to a later one (`NoCancellationMisalignsIff`). With a first task that waits for the
  second, the second's outcome is read as the first's (`CancelledRunMislabels`).
* Merging compares raw ids and staging trimmed ones, so ids that merging keeps apart can still
  collide (`RawDistinctIsNotEnough`). Two input ids with the same trimmed form always do
  (`MergedIdsNeedDistinctTrims`, `PlanNeedsDistinctTrims`), and an id made up for a repeated one can
  collide with an input id too (`SuffixMeetsInputId`). The planned ids are distinct for staging iff the
  first round repeats no id that reaches the plan, trimming keeps the ids of the rounds apart, and none
  of them is a variant of an id that merging makes up (`PlanIdsAreDistinctIff`). So they are distinct
  when the first round repeats no id and no id carries surrounding white space
  (`PlanningGivesDistinctIds`).
* A placeholder stays in the plan under another id iff a task of the second or third round carries
  the placeholder's id while an earlier task already does (`PlaceholderStaysIff`). For rounds that
  failed or parsed without that id this means that two rounds failed
  (`PlaceholderStaysIffTwoRoundsFail`); otherwise no placeholder is left beside another task
  (`NoPlaceholderNextToATask`).
* An agent run whose last attempt ends because its context is too large is reported as an
  authentication failure iff one of the two token counts contains the digits 401 or 403 and no later
  candidate has another secret (`ContextErrorIsReportedAsAuthIff`), as with a single candidate and
  240 100 tokens (`ContextErrorTakenForAuthFailure`).
* The date formula stays within its machine integers from 1 March of the year -2 147 483 600 to the end
  of the year 2 147 483 647, and on no other day (`FitsIff`).
* Where comments and code disagree the model follows the code. A comment says any verdict but PASS
  leads to a repair; two unanswered reviews do not (`RepairRuleIsDocumentedIff`). A comment says a
  timeout is not retried; it is (`TimeoutsMoveOn`).
* A review half answered, PASS and UNKNOWN, is repaired until the cap and then reported as done
  (`HalfAnsweredReviewsUseUpTheRepairs`).

## Model

| member | source | states |
|---|---|---|
| Staging.IsReady | crates/pipe-server/src/orchestrator.rs:619-626 | the readiness test holds iff every non-blank declared id that some task carries is completed; ids are compared trimmed |
| Staging.SplitReady | crates/pipe-server/src/orchestrator.rs:618-632 | one pass splits the remaining tasks into exactly the ready ones and the others, both in index order |
| Staging.CompleteStage | crates/pipe-server/src/orchestrator.rs:639-641 | the completed ids gain exactly the trimmed ids of the stage's tasks |
| Staging.PartitionTasksIntoStages | crates/pipe-server/src/orchestrator.rs:606-649 | terminates for any task list; every stage is non-empty and increasing, holds exactly the tasks left that are ready after the earlier stages, or is the last one and none of the tasks left is ready; every task is placed |
| TextLaws.TrimIsMiddle | crates/pipe-server/src/orchestrator.rs:622-625 | what trimming leaves stands between white space and has none at its own ends |
| TextLaws.TrimIsUnique | crates/pipe-server/src/orchestrator.rs:622-625 | only one text can be left between white space |
| TextLaws.PaddingIsUnique | crates/pipe-server/src/orchestrator.rs:622-625 | when something is left, so is the white space before and behind it |
| TextLaws.WhitespaceIsListed | crates/pipe-server/src/orchestrator.rs:622-625 | white space is the 25 code points of the Unicode property White_Space |
| StagingLaws.SameStaging | crates/pipe-server/src/orchestrator.rs:606-649 | the stages depend only on the trimmed ids and on which known, non-blank ones each task asks for |
| StagingLaws.PaddingKeepsStaging | crates/pipe-server/src/orchestrator.rs:621-640 | white space around ids and dependencies changes no stage |
| StagingLaws.UnknownDependenciesDoNotCount | crates/pipe-server/src/orchestrator.rs:621-626 | dependencies that are blank or no task's id change no stage |
| StagingLaws.TrailingSpaceIsWaitedFor | crates/pipe-server/src/orchestrator.rs:621-626 | an instance: a dependency written with a space behind is waited for |
| StagingTheorems.StagesArePermutation | crates/pipe-server/src/orchestrator.rs:612-648 | the concatenated stages are a permutation of all task indices, no uniqueness of ids assumed |
| StagingTheorems.DependenciesRunEarlier | crates/pipe-server/src/orchestrator.rs:620-646 | every id a task outside the fallback waits for is provided by a task of a strictly earlier stage |
| StagingTheorems.EveryTaskRunsOrIsFallback | crates/pipe-server/src/orchestrator.rs:614-646 | every task is in some stage, and in the fallback set iff that stage is the fallback |
| StagingTheorems.DeadlockedNeverRuns | crates/pipe-server/src/orchestrator.rs:634-637 | a member of a set that waits only for its own members never runs in a normal stage |
| StagingTheorems.FallbackIsGreatestDeadlock | crates/pipe-server/src/orchestrator.rs:634-637 | the fallback stage is the greatest set of tasks each of which waits for an id only the set provides, duplicate ids allowed |
| StagingTheorems.NoScheduleIsEarlier | crates/pipe-server/src/orchestrator.rs:614-646 | no assignment of times that puts a provider of every dependency strictly earlier runs a task before its stage |
| StagingTheorems.StagingIsLeastSchedule | crates/pipe-server/src/orchestrator.rs:606-649 | the stage numbers are such an assignment, for exactly the tasks outside the fallback, and pointwise least among all of them |
| StagingTheorems.StageCountIsMinimal | crates/pipe-server/src/orchestrator.rs:606-649 | without a fallback no schedule of all tasks needs fewer stages |
| StagingUniqueness.StageByReadiness | crates/pipe-server/src/orchestrator.rs:618-645 | what was placed before determines the next stage |
| StagingUniqueness.StagingIsUnique | crates/pipe-server/src/orchestrator.rs:606-649 | the contract of the partition admits exactly one list of stages |
| DependencyCycles.StageIsLongestChain | crates/pipe-server/src/orchestrator.rs:606-649 | with distinct trimmed ids the stage number of a task is the length of its longest chain of known dependencies |
| DependencyCycles.Pigeonhole | crates/pipe-server/src/orchestrator.rs:634-637 | a path over `n` tasks with more than `n` entries visits a task twice |
| DependencyCycles.FallbackIsCycleReaching | crates/pipe-server/src/orchestrator.rs:634-637 | with distinct trimmed ids the fallback holds exactly the tasks from which following dependencies leads to a cycle |
| DependencyCycles.FallbackIffCyclic | crates/pipe-server/src/orchestrator.rs:634-646 | there is a fallback iff the dependency graph over known ids has a cycle, and it is the last stage |
| PlanMerge.FreshId | crates/pipe-server/src/orchestrator.rs:206-211 | the search ends, after at most one candidate per taken id, at the first numbered suffix from 2 on that is free |
| PlanMerge.SuffixIsBounded | crates/pipe-server/src/orchestrator.rs:205-211 | the counter never exceeds the number of taken ids by more than two, because numbered suffixes are distinct |
| PlanMerge.Renamed | crates/pipe-server/src/orchestrator.rs:204-212 | a task keeps a new id and gets the first free suffix for a taken one; nothing else about it changes |
| PlanMerge.PlanDoc.Merge | crates/pipe-server/src/orchestrator.rs:194-216 | the old tasks stay as a prefix, the others follow in order, each renamed against all tasks before it; texts are only filled in where empty |
| PlanMerge.MergedTaskIsNew | crates/pipe-server/src/orchestrator.rs:203-215 | an appended task differs at most in its id, which no task before it has |
| PlanMerge.MergeKeepsDistinct | crates/pipe-server/src/orchestrator.rs:194-216 | merging keeps ids distinct whatever is merged in |
| PlanMerge.MergeIsUnique | crates/pipe-server/src/orchestrator.rs:194-216 | the contract of the merge admits exactly one task list |
| PlanMerge.PlanInThreeRounds | crates/pipe-server/src/orchestrator.rs:1426-1457 | the plan is the merge of the three rounds with the placeholder dropped if any other task exists |
| PlanMerge.PlanningGivesDistinctIds | crates/pipe-server/src/orchestrator.rs:1426-1457 | distinct ids in the first round give distinct ids in the plan, also as staging compares them if no id carries surrounding white space |
| PlanMerge.PlanningIsUnique | crates/pipe-server/src/orchestrator.rs:1426-1457 | the three rounds determine the planned tasks |
| PlanMerge.MergeKeepsTrimmed | crates/pipe-server/src/orchestrator.rs:204-212 | renaming adds no surrounding white space |
| PlanMerge.RawDistinctIsNotEnough | crates/pipe-server/src/orchestrator.rs:201-212 | an instance: ids that differ only in surrounding white space survive merging and collide in staging |
| PlanMerge.PlaceholdersOfLaterRoundsStay | crates/pipe-server/src/orchestrator.rs:1439-1457 | an instance: three failed rounds leave two renamed placeholders in the plan |
| PlanIds.MergedIdsNeedDistinctTrims | crates/pipe-server/src/orchestrator.rs:194-216 | merged ids are distinct for staging only if trimming keeps all ids of both inputs apart |
| PlanIds.DistinctMergeIsDistinctIff | crates/pipe-server/src/orchestrator.rs:194-216 | when no id repeats, merging appends, and the ids are distinct for staging iff trimming keeps the input ids apart |
| PlanIds.PlanNeedsDistinctTrims | crates/pipe-server/src/orchestrator.rs:1426-1457 | planned ids are distinct for staging only if trimming keeps the ids of the three rounds apart, the placeholder aside |
| PlanIds.PlanIdsAreDistinctIff | crates/pipe-server/src/orchestrator.rs:1426-1457 | the planned ids are distinct for staging iff the first round repeats no id that reaches the plan, trimming keeps the ids of the rounds and of copied placeholders apart, and none of these is a variant of a suffixed id without being it |
| PlanIds.UnrepeatedPlanIsDistinctIff | crates/pipe-server/src/orchestrator.rs:1426-1457 | when no id repeats over the rounds, the plan lists their tasks without the placeholder, and is distinct for staging iff trimming keeps the ids apart |
| PlanIds.PlanIsRawDistinctIff | crates/pipe-server/src/orchestrator.rs:1426-1457 | the planned ids differ as written iff those of the first round that reach the plan do |
| PlanIds.TwoMergesAreOne | crates/pipe-server/src/orchestrator.rs:1426-1449 | merging two rounds one after the other is merging them together |
| PlanIds.SuffixMeetsInputId | crates/pipe-server/src/orchestrator.rs:201-212 | an instance: the suffixed id of a repeated one collides in staging with an id of the first round |
| PlanIds.PlaceholderIsRenamedIff | crates/pipe-server/src/orchestrator.rs:194-212 | merging renames a placeholder iff it is of the second or third round and an earlier task has its id |
| PlanIds.PlaceholderStaysIff | crates/pipe-server/src/orchestrator.rs:1439-1457 | a placeholder stays in the plan under another id iff a task of a later round carries its id behind another one |
| PlanIds.NoPlaceholderNextToATask | crates/pipe-server/src/orchestrator.rs:1446-1457 | otherwise every placeholder keeps its id and is gone from every plan that has another task |
| PlanIds.PlaceholderStaysIffTwoRoundsFail | crates/pipe-server/src/orchestrator.rs:1426-1457 | when every round failed or parsed without the placeholder's id, one stays iff at least two rounds failed |
| Develop.CollectStage | crates/pipe-server/src/orchestrator.rs:717-733 | a finished stage stores each outcome in its task's slot and appends its line, in stage order, unless one of the outcomes is cut inside a character: then it panics |
| Develop.RunPhase5Workers | crates/pipe-server/src/orchestrator.rs:654-736 | the stages up to the first cancellation ran, each on the lines of all earlier ones, and the result lists the outcomes by task index; or the stages up to the first that cannot be collected ran and there is no result; the channel carries the signals of each stage in some order |
| Develop.UncancelledResultsAlign | crates/pipe-server/src/orchestrator.rs:654-736 | in a development that returns results and is not cancelled, result `i` is the outcome of task `i` in its own stage, one for every task |
| Develop.DependencyOutcomesAreSeen | crates/pipe-server/src/orchestrator.rs:672-733 | the context a worker is started with holds the outcome line of a provider of each of its dependencies |
| Develop.OutcomeLineTells | crates/pipe-server/src/orchestrator.rs:718-731 | a worker's line holds the task's title, the status, and the summary or the start of the text |
| Develop.LinesGrow | crates/pipe-server/src/orchestrator.rs:733-733 | later stages see the lines of earlier ones first, one a task, and no others |
| Develop.ArchitectureIsSeen | crates/pipe-server/src/orchestrator.rs:662-696 | the architecture is the first line every worker sees; without one the first stage is given no context |
| Develop.DevelopmentIsUnique | crates/pipe-server/src/orchestrator.rs:654-736 | plan, feedback, workers and cancellation determine the results of a development that returns some |
| Develop.ResultsListFinishedTasks | crates/pipe-server/src/orchestrator.rs:735-735 | entry `p` of the results belongs to the `p`-th task that finished |
| Develop.ResultsAlignIff | crates/pipe-server/src/orchestrator.rs:669-735 | cancelled before stage `ran`, entries can be read by task index iff the stages before hold no task without all tasks listed before it |
| Develop.NoCancellationMisalignsIff | crates/pipe-server/src/orchestrator.rs:669-735 | no cancellation can misalign the entries of a plan iff stage numbers never fall from one task to a later one |
| Develop.CancelledRunMislabels | crates/pipe-server/src/orchestrator.rs:669-735 | an instance: with a first task that waits for the second, cancelled before the second stage, the only entry is the second task's |
| Develop.CutSplitsCharacterIff | crates/pipe-server/src/orchestrator.rs:718-725 | the cut at byte 300 falls inside a character iff the last attempt ended without a summary behind such a text |
| Develop.PanicIff | crates/pipe-server/src/orchestrator.rs:669-733 | Phase 5 panics iff a stage that no cancellation precedes holds a task whose outcome is cut inside a character |
| Develop.PanicSplitsLast | crates/pipe-server/src/orchestrator.rs:717-733 | it panics on the last stage it collected and on no earlier one |
| Develop.DevelopmentSplitsNone | crates/pipe-server/src/orchestrator.rs:717-733 | it returns results only if no outcome it collected is cut inside a character |
| Develop.DevelopmentIsNoPanic | crates/pipe-server/src/orchestrator.rs:654-736 | the same inputs do not both return results and panic |
| Develop.PanicIsUnique | crates/pipe-server/src/orchestrator.rs:654-736 | plan, feedback, workers and cancellation determine where it panics |
| Workflow.Orchestrator.ApplyDispatch | crates/pipe-server/src/orchestrator.rs:1514-1523 | a confirmed task list replaces the plan's as it is unless it is empty or starts with the placeholder; texts only where not empty |
| Workflow.Orchestrator.ReviewRound | crates/pipe-server/src/orchestrator.rs:1560-1607 | both verdicts on these results are published; another repair follows iff nothing stops the loop and the verdicts and the cap ask for one |
| Workflow.Orchestrator.RepairRound | crates/pipe-server/src/orchestrator.rs:1608-1688 | a repair is announced with its number, the cap and both verdicts, and the workers run again on the feedback of this review; the transition to the review follows unless the development panics |
| Workflow.Orchestrator.DevelopAndReview | crates/pipe-server/src/orchestrator.rs:1535-1689 | the rounds form the loop that ends at the first one not repaired, at most the cap many repairs, and the last round's results are the ones delivered; or all rounds were repaired and the next development panics |
| Workflow.Orchestrator.PlanAndDispatch | crates/pipe-server/src/orchestrator.rs:1380-1535 | phases 1 to 4 in order, plan critics on the merged plan, the confirmed list taken over |
| Workflow.Orchestrator.Deliver | crates/pipe-server/src/orchestrator.rs:1691-1798 | the chief delivers between the delivery and the terminal event; the summary leads with both verdicts and goes on with the first non-empty one of summary and text, or the placeholder when there is none |
| Workflow.FinalSummaryIsUnique | crates/pipe-server/src/orchestrator.rs:1757-1778 | verdicts and delivery determine that summary |
| Workflow.DeliveredTextIs | crates/pipe-server/src/orchestrator.rs:1757-1778 | the summary goes on with the chief's summary if it is not empty, else its text if that is not, else the placeholder |
| Workflow.Orchestrator.Run | crates/pipe-server/src/orchestrator.rs:1355-1837 | a role that does not resolve gives a single failed event; every other run sends exactly its script: the announcements of its rounds, and between them everything its agents send, in the order their phases run; a panic cuts the script off behind the stage it happens in |
| WorkflowTheorems.PhasesInOrder | crates/pipe-server/src/orchestrator.rs:1380-1693 | phase targets are the five up to development, then final review, then repair and final review `k` times, then delivery; a run that panics stops in the first development or in a repair; repairs are numbered from 1 and at most the cap |
| WorkflowTheorems.DeliversIff | crates/pipe-server/src/orchestrator.rs:1535-1798 | a run announces the delivery, and its terminal event, iff no outcome collected in a development is cut inside a character |
| WorkflowTheorems.TerminalAnnouncementIsLast | crates/pipe-server/src/orchestrator.rs:1573-1798 | of the announcements of a run that does not panic one is terminal, the last; its status follows from the last two published verdicts; every repair event quotes the two verdicts before it |
| ReviewRules.LoopStopsIff | crates/pipe-server/src/orchestrator.rs:1580-1607 | a review is the last one iff the run is cancelled, a critic's run refuses it, the verdicts agree, or the cap is reached; otherwise another development follows |
| ReviewRules.EndsReviewIff | crates/pipe-server/src/orchestrator.rs:1580-1592 | a critic's outcome ends the review iff its role does not resolve, its last attempt was cancelled, it gave up on authentication, or its status quotes such an error |
| ReviewRules.AnsweringIsNoRefusal | crates/pipe-server/src/orchestrator.rs:1580-1592 | a critic that answers never does |
| ReviewRules.AnsweredReviewIsRepaired | crates/pipe-server/src/orchestrator.rs:1580-1607 | below the cap, uncancelled, two critics that answer without agreeing get another development |
| ReviewRules.FeedbackTellsBoth | crates/pipe-server/src/orchestrator.rs:1654-1669 | the feedback holds each critic's own verdict and issues, or the first 500 characters of its text, and the first 200 of the chief's decision |
| ReviewRules.FeedbackReachesWorkers | crates/pipe-server/src/orchestrator.rs:1664-1670 | the workers of a repair are told the feedback of the review before, those of the first round nothing |
| ReviewRules.FailedDispatchIsIgnored | crates/pipe-server/src/orchestrator.rs:1514-1523 | a dispatch that failed or lists no task leaves the plan, one that parsed replaces its tasks |
| ReviewRules.FirstRoundWins | crates/pipe-server/src/orchestrator.rs:195-200 | of the texts of three rounds the first that is not empty is kept |
| ReviewRules.DispatchedArchitectureWins | crates/pipe-server/src/orchestrator.rs:1514-1523 | the architecture of a confirmed plan is the dispatch's if it has one, else that of planning |
| WorkflowTheorems.StatusFollowsVerdicts | crates/pipe-server/src/orchestrator.rs:2120-2150 | done iff neither verdict is REPAIR or REWRITE and not both are UNKNOWN; a failure names the more severe verdict and its critic, the first on a tie |
| WorkflowTheorems.StatusTextTellsFailure | crates/pipe-server/src/orchestrator.rs:2132-2150 | the status text is DONE iff the workflow is done and starts with FAILED otherwise |
| WorkflowTheorems.StatusTextTells | crates/pipe-server/src/orchestrator.rs:2132-2150 | the status of a rejected workflow names the verdict and the critic |
| WorkflowTheorems.VerdictTextsDiffer | crates/pipe-server/src/orchestrator.rs:2132-2150 | verdicts are told apart by their texts |
| WorkflowTheorems.RepairRuleIsDocumentedIff | crates/pipe-server/src/orchestrator.rs:2100-2118 | the repair decision is the documented one iff not both critics are silent below the cap |
| WorkflowTheorems.HalfAnsweredReviewsUseUpTheRepairs | crates/pipe-server/src/orchestrator.rs:2106-2150 | PASS with UNKNOWN in every review repairs up to the cap and then reports done, if no development panics |
| WorkflowTheorems.LoopIsUnique | crates/pipe-server/src/orchestrator.rs:1535-1689 | the agents' answers determine the rounds and whether and where a development panics |
| WorkflowTheorems.EveryRoundCoversThePlan | crates/pipe-server/src/orchestrator.rs:1535-1675 | in an uncancelled round there is one result per task, answered by its worker on the feedback of the review before |
| WorkflowTheorems.RejectedKeysEndTheLoop | crates/pipe-server/src/orchestrator.rs:1580-1590 | a critic that gives up on authentication ends the repair loop |
| WorkflowTheorems.OnlyUnresolvedRolesEndTheLoop | crates/pipe-server/src/orchestrator.rs:809-832 | a critic whose role does not resolve ends the loop, one that resolves to no candidate does not |
| WorkflowStream.ScriptPerforms | crates/pipe-server/src/orchestrator.rs:1355-1798 | of everything on the channel the orchestrator announces exactly the trace, whole or up to the panic, and the rest are agent runs |
| WorkflowAgents.AgentsByPhase | crates/pipe-server/src/orchestrator.rs:1380-1723 | the agents of a run in order, each under the phase announced last: chief, three plans, two critics, dispatch, then round by round the repair chief, the workers and both critics, then the delivery |
| WorkflowAgents.VerdictsArePublished | crates/pipe-server/src/orchestrator.rs:1490-1574 | the verdicts on the plan and those of every final review are published in order, under phase and role, and no others |
| WorkflowAgents.RepairsNameTheCap | crates/pipe-server/src/orchestrator.rs:1642-1650 | every repair event names the cap |
| WorkflowStream.DoneEventsOfRun | crates/pipe-server/src/orchestrator.rs:1133-1279 | a run sends one done event under the workflow's id per interrupted attempt and, unless it panics, the one of the final verdicts, as its last event; so there is one iff no attempt was interrupted |
| WorkflowStream.TerminalEventIsSentIff | crates/pipe-server/src/orchestrator.rs:1535-1798 | subscribers see the delivery phase and the terminal event iff no outcome collected in a development is cut inside a character |
| WorkflowStream.UndisturbedMeans | crates/pipe-server/src/orchestrator.rs:1133-1279 | an agent run adds no such event iff none of the attempts made was cancelled while received or timed out |
| WorkflowInstances.TwoDoneEvents | crates/pipe-server/src/orchestrator.rs:1261-1279 | an instance: every agent answers and the chief times out on the delivery; there are exactly two |
| WorkflowInstances.NoTerminalEvent | crates/pipe-server/src/orchestrator.rs:717-733 | an instance: the only worker times out behind 299 letters and a character of three bytes; neither the delivery nor a terminal event follows |
| AgentReports.InterleaveIsInterleaving | crates/pipe-server/src/orchestrator.rs:1158-1158 | signals merged by a schedule keep every run's order and lose none |
| AgentReports.EveryInterleavingIsScheduled | crates/pipe-server/src/orchestrator.rs:1158-1158 | every order concurrent runs could send in is some schedule's |
| AgentReports.OwnEndsOfGroup | crates/pipe-server/src/orchestrator.rs:717-717 | whatever the order, concurrent runs put one done event under the workflow's id on the channel per interrupted attempt |
| AgentRuns.EveryStatusIsTerminal | crates/pipe-server/src/orchestrator.rs:1245-1249 | every status an agent run can end with is recognised as terminal; FAILED marks exactly the errors |
| AgentRuns.UnknownIsNotTerminal | crates/pipe-server/src/orchestrator.rs:1245-1249 | the status of a channel that closes early is not terminal |
| AgentRuns.Receive | crates/pipe-server/src/orchestrator.rs:1123-1256 | the receive loop forwards every event and collects its text until the done event, or until it is cancelled, times out or finds the channel closed |
| AgentRuns.DriveSingleAgent | crates/pipe-server/src/orchestrator.rs:1062-1320 | outcome and signals of an attempt: those of its done event, or the ones made up for a cancellation or a timeout |
| AgentRuns.OwnEndIffInterrupted | crates/pipe-server/src/orchestrator.rs:1133-1152 | a done event under the workflow's id is sent iff the attempt is interrupted: once, last, and with the status of the outcome |
| AgentRuns.WholeRunIsReceived | crates/pipe-server/src/orchestrator.rs:1153-1256 | an agent's run that is not interrupted is forwarded whole, and its outcome has the status, the summary and the text of the run |
| Candidates.RunWithFallback | crates/pipe-server/src/orchestrator.rs:836-978 | the candidates tried are a prefix, each once and in order; all but the last failed retriably; the outcome is the last one's, marked if authentication is given up; the signals are those of the attempts in order |
| Candidates.RunAgent | crates/pipe-server/src/orchestrator.rs:794-978 | nothing is tried without a resolved candidate, and the two ways to have none are told apart |
| Candidates.FallbackRunIsUnique | crates/pipe-server/src/orchestrator.rs:836-978 | what the candidates would answer determines how many are tried and the outcome |
| Candidates.AuthErrorIsReportedIff | crates/pipe-server/src/orchestrator.rs:921-962 | a run is reported as an authentication error iff its last attempt failed to authenticate and no later candidate has another secret; by then every secret of the list has been tried |
| Candidates.OnlyErrorsMoveOn | crates/pipe-server/src/orchestrator.rs:926-965 | of the ends an agent run can have exactly the errors lead to the next candidate, those of authentication only if another secret is left |
| FallbackLaws.MovesOnIff | crates/pipe-server/src/orchestrator.rs:913-929 | an attempt is followed by the next candidate iff the agent ends with an error or times out, and on an authentication failure only if not all candidates from it on share the secret |
| FallbackLaws.CandidateIsTriedIff | crates/pipe-server/src/orchestrator.rs:836-965 | a later candidate is tried iff all attempts before it are such |
| FallbackLaws.FailedProviderFallsBack | crates/pipe-server/src/orchestrator.rs:926-965 | for example a failed provider is followed by the next one |
| FallbackLaws.AuthFailureIff | crates/pipe-server/src/orchestrator.rs:913-918 | a status counts as an authentication failure iff one of six wordings stands in it |
| FallbackLaws.AuthErrorTells | crates/pipe-server/src/orchestrator.rs:934-958 | the reported error names provider and secret and quotes the failure; text and summary are kept |
| FallbackLaws.SentInOrder | crates/pipe-server/src/orchestrator.rs:836-965 | the signals of the attempts go out one attempt after the other |
| FallbackLaws.UnresolvedRoleTells | crates/pipe-server/src/orchestrator.rs:822-831 | a role that does not resolve says why in its status, its summary and its text |
| FallbackLaws.StatusAndSummaryTell | crates/agent-core/src/loop_.rs:152-161 | a failed status quotes its error; summaries are the model's text, the error, or name the tool and the count |
| FallbackLaws.ErrorTextTells | crates/agent-core/src/lib.rs:58-83 | an error quotes the provider, or names both counts, or the limit |
| Candidates.TimeoutsMoveOn | crates/pipe-server/src/orchestrator.rs:919-929 | an attempt that the orchestrator times out is retried |
| Candidates.ContextErrorLooksLikeAuthIff | crates/pipe-server/src/orchestrator.rs:913-918 | a context-too-large status counts as an authentication failure iff a token count contains 401 or 403 |
| Candidates.ContextErrorIsReportedAsAuthIff | crates/pipe-server/src/orchestrator.rs:913-962 | a run whose last attempt ends so is reported as an authentication error iff they do and no later candidate has another secret |
| Candidates.ContextErrorTakenForAuthFailure | crates/pipe-server/src/orchestrator.rs:913-918 | an instance: a single candidate and 240 100 tokens are reported as an authentication error |
| Context.Partition | crates/agent-core/src/context.rs:69-70 | system messages and the others, both in order |
| Context.GroupBlocks | crates/agent-core/src/context.rs:76-93 | the blocks are those of the specification: one message and the tool results after it |
| Context.BlocksCut | crates/agent-core/src/context.rs:76-93 | the blocks concatenate to the messages, and only the first may start with a tool result |
| Context.CutsAreBlocks | crates/agent-core/src/context.rs:76-93 | any cut of the messages into such blocks is this one |
| Context.KeepFromTail | crates/agent-core/src/context.rs:96-113 | the kept blocks are the tail that fits, or the last block alone |
| Context.AddMarker | crates/agent-core/src/context.rs:117-121 | what is kept, or a marker and what is kept: led by the user, and unchanged if the user leads it already or it is empty |
| Context.MarkedIsLeast | crates/agent-core/src/context.rs:117-121 | these three conditions admit one result |
| Context.Compact | crates/agent-core/src/context.rs:64-124 | compaction computes the specification function, on every history and budget |
| TokenEstimates.CountIsLeast | crates/agent-core/src/context.rs:46-54 | the estimate is the least number of tokens that four bytes each make up content and calls |
| TokenEstimates.CallCharsOf | crates/agent-core/src/context.rs:49-52 | a call adds its name and its arguments wherever it stands |
| TokenEstimates.ArgumentsCost | crates/agent-core/src/context.rs:46-54 | a message costs at least a quarter of the arguments of any of its calls |
| TokenEstimates.LongCallIsOverLimit | crates/agent-core/src/context.rs:46-59 | a call with arguments of more than four times a limit puts every history over it |
| TokenEstimates.WithinBudgetIsKept | crates/agent-core/src/context.rs:65-68 | within the budget a history is sent as it is |
| TokenEstimates.LongCallDropsTheQuestion | crates/agent-core/src/context.rs:64-124 | an instance: a call of more than 400 000 bytes makes the question give way to the marker |
| CompactionTheorems.FittingTailIsLongest | crates/agent-core/src/context.rs:96-113 | the tail kept fits, and every longer one does not |
| CompactionTheorems.KeptTailIsLongest | crates/agent-core/src/context.rs:96-113 | the tail kept is the longest that fits, or the last block when not even that fits |
| CompactionTheorems.CompactedShape | crates/agent-core/src/context.rs:64-124 | over budget the result is all system messages in order, an optional marker, and the longest block-aligned suffix of the rest that fits, or its last block |
| CompactionTheorems.CompactedCost | crates/agent-core/src/context.rs:64-124 | the result costs at most the larger of the budget and the system messages with the last block, plus the marker's 7 tokens |
| CompactionTheorems.CompactionKeepsSystemFirst | crates/agent-core/src/context.rs:69-123 | a leading system message stays first |
| CompactionTheorems.CompactionKeepsLatestBlock | crates/agent-core/src/context.rs:64-124 | all system messages survive, and the latest block survives whole and at the end |
| CompactionTheorems.CompactionEndsWithLatestBlock | crates/agent-core/src/context.rs:64-124 | over budget, the whole compacted history ends with the latest block |
| CompactionTheorems.CompactIsIdempotentIff | crates/agent-core/src/context.rs:64-124 | compacting twice is compacting once iff not: system messages over budget, other messages free, the first a tool result, and more than one block |
| CompactionTheorems.CompactIsIdempotentWithoutOrphans | crates/agent-core/src/context.rs:64-124 | compacting twice is compacting once whenever the first non-system message is not a tool result, even if the marker pushes the result over budget |
| CompactionTheorems.CompactingTwiceCanDropMore | crates/agent-core/src/context.rs:79-121 | a history on which the second compaction drops a tool result |
| ToolPairing.PairedMeans | crates/agent-core/src/context.rs:73-93 | a history is paired iff every assistant message's calls are followed at once by exactly their results and every tool result belongs to a call |
| ToolPairing.PairedConcat | crates/agent-core/src/loop_.rs:204-207 | paired histories concatenate to a paired one |
| ToolPairing.PairedSuffix | crates/agent-core/src/context.rs:96-114 | a suffix that does not start inside the results of a call is paired |
| ToolPairing.CompactionKeepsPairs | crates/agent-core/src/context.rs:64-124 | compaction keeps every call with its results |
| ToolPairing.PairedHistoriesCompactOnce | crates/agent-core/src/context.rs:64-124 | a paired history is changed by compaction once at most |
| AgentLoop.ReadStream | crates/agent-core/src/loop_.rs:233-261 | the chunks up to the end marker or the first error give the events, the text and the calls, and that error |
| StreamLaws.TextIsRead | crates/agent-core/src/loop_.rs:239-249 | a text chunk adds its text where it stands, and is sent on unless it is empty |
| StreamLaws.CallIsRead | crates/agent-core/src/loop_.rs:250-258 | a tool call is announced and collected where it stands |
| StreamLaws.StreamFailsIff | crates/agent-core/src/loop_.rs:237-261 | a stream fails with an error iff that is its first and no end marker comes before |
| StreamLaws.TurnIsSent | crates/agent-core/src/loop_.rs:233-264 | the text of a turn is that of the deltas it sends, and its calls are those it announces |
| StreamLaws.DeltaIsText | crates/pipe-server/src/orchestrator.rs:1160-1162 | the text received is that of the deltas, each where it stands |
| AgentLoop.TrackResult | crates/agent-core/src/loop_.rs:297-327 | the failure key and counter stay those of the run of identical failures at the end of all executions |
| AgentLoop.ExecuteOne | crates/agent-core/src/loop_.rs:276-328 | one call adds its event, its log entry and its result message, or ends the run |
| AgentLoop.ExecuteCalls | crates/agent-core/src/loop_.rs:276-329 | the calls are executed in order until the repeat check fires |
| AgentLoop.Iterate | crates/agent-core/src/loop_.rs:216-332 | one iteration sends the request and events of the specified turn and leaves with its history and log, or exits as the turn ends |
| AgentLoop.Iterations | crates/agent-core/src/loop_.rs:216-334 | the iterations form a run; requests and events are those of its turns |
| AgentLoop.DriveLoop | crates/agent-core/src/loop_.rs:169-335 | the loop sends its own last event or returns the error that becomes it |
| AgentLoop.Run | crates/agent-core/src/loop_.rs:111-165 | every run sends the events of its turns and then its end event |
| AgentTheorems.RunIsUnique | crates/agent-core/src/loop_.rs:216-334 | provider, tools and cancellation determine the turns |
| AgentTheorems.EveryRequestIsWellFormed | crates/agent-core/src/loop_.rs:204-328 | for every paired chat history, every reply and every tool result, each request starts with the system prompt, pairs all calls with their results and is at most one marker over the hard limit |
| AgentTheorems.LatestTurnIsSentWhole | crates/agent-core/src/loop_.rs:225-328 | each later request ends with an assistant message of the text and calls the previous turn has sent, and with the results its calls gave, one for each, however small the budget |
| AgentTheorems.TurnEventsAreOrdered | crates/agent-core/src/loop_.rs:233-329 | within a turn the finished ids are a prefix of the started ids, all of them if the turn goes on |
| AgentTheorems.OneDoneAndLast | crates/agent-core/src/loop_.rs:129-335 | a run has exactly one done event, it is last, and there are at most `max_iterations` turns |
| AgentTheorems.DoneMeansAllFinished | crates/agent-core/src/loop_.rs:266-273 | in a run ending DONE every started call finished, the last turn started none, and the summary is the text the last turn has sent |
| RunLaws.TurnIsSentInOrder | crates/agent-core/src/loop_.rs:216-332 | the events and the request of every turn come behind those of the turns before it |
| RunLaws.HowTurnsEnd | crates/agent-core/src/loop_.rs:217-273 | a turn is aborted iff cancelled, fails iff over the hard limit, and only otherwise sends its compacted history; it is done iff the provider then answers without failing and without a call |
| RunLaws.ProviderErrorIff | crates/agent-core/src/loop_.rs:230-261 | a turn fails on the provider iff that refuses it or breaks its stream, with that error |
| RunLaws.RunIsAbortedIff | crates/agent-core/src/loop_.rs:216-224 | a run is aborted iff the token is found cancelled before one of its turns |
| RunLaws.RunIsExhaustedIff | crates/agent-core/src/loop_.rs:334-334 | a run fails on the cap iff as many turns as configured went on |
| RunLaws.InitialHistoryHolds | crates/agent-core/src/loop_.rs:204-207 | the first history is the prompt, every message of the chat and the task |
| RunLaws.FirstRequestAsksForTheTask | crates/agent-core/src/loop_.rs:204-232 | whatever is compacted, the first request starts with the prompt and ends with the task |
| RunLaws.SameKeyIff | crates/agent-core/src/loop_.rs:299-300 | calls of tools without a bar in their names share a key iff names and arguments agree |
| RunLaws.HowCallsAreAnswered | crates/agent-core/src/loop_.rs:295-328 | a result is sent back as it is, with a warning if the same call has failed before in a row; the run is aborted, naming the call, once the row is as long as allowed |
| AgentTheorems.RepeatRunIsLongest | crates/agent-core/src/loop_.rs:188-192 | the counter is the length of the longest suffix of executions that all failed with the current key |
| AgentTheorems.LogsAreQuiet | crates/agent-core/src/loop_.rs:276-329 | the log carries over from turn to turn, complete, and the check did not fire on any prefix |
| AgentTheorems.LogThroughAddsCalls | crates/agent-core/src/loop_.rs:276-329 | a turn adds the entries of its first calls, in order |
| AgentTheorems.RepeatAbortIsExact | crates/agent-core/src/loop_.rs:298-327 | a run ends ABORTED_REPEAT exactly when that suffix first reaches the limit, never with limit 0 |
| Calendar.YearLength | apps/desktop/src-tauri/src/lib.rs:1916-1928 | counting years gives 366 days for the leap years of RFC 3339, Appendix C, and 365 otherwise |
| Calendar.EraFloors | apps/desktop/src-tauri/src/lib.rs:1917-1919 | the truncating division of the whole conditional is a floor, so the day of the era is in range |
| Calendar.Corrections | apps/desktop/src-tauri/src/lib.rs:1920-1920 | the three corrections count whole centuries and leap days, on every day of an era |
| Calendar.MonthAndDayIsRight | apps/desktop/src-tauri/src/lib.rs:1923-1926 | every day of a March year becomes a valid date at the right distance |
| Calendar.CivilFromDaysIsRight | apps/desktop/src-tauri/src/lib.rs:1916-1928 | for every day number the formula gives a valid date whose day count is that number |
| Calendar.DaysFromCivilIsMonotonic | apps/desktop/src-tauri/src/lib.rs:1913-1915 | later dates have larger day numbers |
| Calendar.CivilFromDaysInvertsCounting | apps/desktop/src-tauri/src/lib.rs:1913-1928 | the formula undoes counting days, so it is a bijection onto the valid dates |
| Calendar.InverseFollowsTheCalendar | apps/desktop/src-tauri/src/lib.rs:1913-1928 | any function that is inverse to counting days steps through the calendar day by day |
| Calendar.CivilFromDaysFollowsTheCalendar | apps/desktop/src-tauri/src/lib.rs:1916-1928 | day `z + 1` is the Gregorian day after day `z`, for every `z` |
| Calendar.DayZeroIsTheEpoch | apps/desktop/src-tauri/src/lib.rs:1913-1917 | day 0 is 1970-01-01 |
| Calendar.FitsIff | apps/desktop/src-tauri/src/lib.rs:1917-1926 | no intermediate leaves its machine integer iff the day is between 1 March of the year -2 147 483 600 and the end of the year 2 147 483 647 |
| Timestamps.TimestampRoundTrips | apps/desktop/src-tauri/src/lib.rs:1896-1911 | up to the end of year 9999 a timestamp has 20 characters and parses back to its second (RFC 3339, section 5.6) |
| Timestamps.BeforeEpochIsEpoch | apps/desktop/src-tauri/src/lib.rs:1893-1901 | times before 1970 read as its first second |
| Timestamps.TimestampsSortByTime | apps/desktop/src-tauri/src/lib.rs:1896-1911 | up to the end of year 9999 later times give lexicographically larger timestamps (RFC 3339, section 5.1) |
| Routes.MatchNext | crates/pipe-server/src/dispatcher.rs:194-242 | one pattern segment takes the specified number of request segments, or none if it cannot match, and binds them |
| Routes.ScanPattern | crates/pipe-server/src/dispatcher.rs:188-243 | the scan stays in range; if it stops early no greedy match exists, and otherwise what it consumed was forced |
| Routes.MatchSegments | crates/pipe-server/src/dispatcher.rs:188-247 | the scan matches iff a greedy match exists, and collects its bindings |
| Routes.MatchRoute | crates/pipe-server/src/dispatcher.rs:164-247 | on a match the bound values put back into the pattern give the request's segments |
| RequestLaws.SegmentInFront | crates/pipe-server/src/dispatcher.rs:164-164 | a piece in front of a slash is a segment unless it is empty |
| RequestLaws.BracedSegments | crates/pipe-server/src/dispatcher.rs:194-228 | a name in braces is a placeholder of that name, with a plus sign behind it a wildcard |
| RequestLaws.LiteralIff | crates/pipe-server/src/dispatcher.rs:219-236 | any other segment is a literal |
| RequestLaws.BindingsAreNamed | crates/pipe-server/src/dispatcher.rs:187-228 | the handler is given one value for each such segment, under its name |
| Routes.GreedyMatchIsUnique | crates/pipe-server/src/dispatcher.rs:183-187 | a pattern and a request have at most one greedy match |
| Routes.MatchIsSubstitution | crates/pipe-server/src/dispatcher.rs:174-246 | with at most one `{name+}` the scan matches iff placeholders can be substituted, in exactly one way |
| Routes.SubstitutionGivesTheRequest | crates/pipe-server/src/dispatcher.rs:215-235 | substituting the bindings back yields exactly the request's segments |
| Routes.TwoWildcardsMissMatches | crates/pipe-server/src/dispatcher.rs:183-212 | two wildcards can miss a match |
| RouteCompleteness.MatchableByPosition | crates/pipe-server/src/dispatcher.rs:188-246 | the scan matches iff the segments before the first wildcard fit from the front and those behind it from the back, with at least one left between |
| RouteCompleteness.ScanIsCompleteIff | crates/pipe-server/src/dispatcher.rs:183-246 | for a pattern the scan finds a substitution of every request that has one iff no literal stands between two wildcards |
| Queries.UrlEncode | apps/desktop/src-tauri/src/lib.rs:1823-1834 | the loop computes the encoding of the UTF-8 bytes |
| RequestLaws.Utf8CharIs | apps/desktop/src-tauri/src/lib.rs:1825-1825 | a character is written in as few bytes as its number needs, and their payload bits make up that number (RFC 3629, section 3) |
| Queries.UrlDecode | crates/pipe-server/src/dispatcher.rs:288-312 | the loop computes the decoding, failing exactly on a percent sign with bad digits before the last two bytes |
| RequestLaws.EncodedByteIs | apps/desktop/src-tauri/src/lib.rs:1823-1834 | a byte is kept iff it is unreserved (RFC 3986, section 2.3), `/` or `:`, and else written with two upper-case digits |
| RequestLaws.HexDigitIff | crates/pipe-server/src/dispatcher.rs:314-321 | a byte is a digit iff it is one of the sixteen, in either case |
| RequestLaws.EscapeIsByte | crates/pipe-server/src/dispatcher.rs:299-304 | a percent sign and two digits are the byte they denote |
| RequestLaws.BadEscapeFails | crates/pipe-server/src/dispatcher.rs:299-301 | a percent sign before two bytes that are not both digits fails the whole text |
| RequestLaws.PlusIsSpace | crates/pipe-server/src/dispatcher.rs:295-298 | a plus sign is a space |
| RequestLaws.OtherByteIsKept | crates/pipe-server/src/dispatcher.rs:305-309 | any other byte but `+` stands for itself, and so does a percent sign among the last two |
| Queries.DecodingUndoesEncodingIff | crates/pipe-server/src/dispatcher.rs:288-321 | decoding an encoded string never fails, gives one character per byte, and gives the string back iff it is ASCII (RFC 3986, sections 2.1 and 2.3) |
| Queries.AccentIsReadAsTwoCharacters | crates/pipe-server/src/dispatcher.rs:288-321 | an instance: `é` is read as two characters |
| Queries.ParseQuery | crates/pipe-server/src/dispatcher.rs:115-144 | the query's pairs are added to the body in order, later ones overwriting |
| RequestLaws.PairSetsKey | crates/pipe-server/src/dispatcher.rs:121-126 | a pair sets its key to the decoded value, or to the value as it is when that fails |
| RequestLaws.FlagsAndEmptyPairs | crates/pipe-server/src/dispatcher.rs:127-129 | a pair without an equals sign is a flag, the empty one nothing |
| Queries.ParsingUndoesBuilding | crates/pipe-server/src/dispatcher.rs:115-144 | splitting a built query at `&` and `=` recovers every key with its value |
| Queries.GetWorkspaceTree | apps/desktop/src-tauri/src/lib.rs:1800-1817 | the request is the route with the fields that are present, and without `?` when none is |
| Queries.TreeRequestIsReceived | crates/pipe-server/src/dispatcher.rs:115-144 | the dispatcher receives the route and exactly the fields sent |
| Queries.TreeFieldsAreRecovered | crates/pipe-server/src/dispatcher.rs:119-144 | the body the handler is given holds the path, as sent if it is ASCII, and the numbers as texts in decimal |
| TreeHandler.NumbersOfTheQueryAreIgnored | crates/pipe-server/src/handlers.rs:617-634 | for every request of the desktop shell the handler goes by its default depth and number of entries |
| TreeHandler.TreeQueryIsHonouredIff | crates/pipe-server/src/handlers.rs:617-634 | it uses the depth, the number of entries and the path asked for iff the first two are left out or the defaults, and the path is ASCII |
| TreeHandler.ListingIsCapped | crates/pipe-server/src/handlers.rs:625-634 | no body makes the handler list deeper than 8 levels or more than 2000 entries; smaller numbers are used |
| TreeHandler.FiveLevelsAreReadAsTwo | crates/pipe-server/src/handlers.rs:625-629 | an instance: five levels asked for, two listed |
| WorkspacePaths.NormalizePath | crates/agent-core/src/workspace.rs:25-57 | the component loop computes the normal form |
| WorkspacePaths.NormalizeIsIdempotent | crates/agent-core/src/workspace.rs:25-57 | on components: normal forms have no `..` and no inner `.`, and are their own normal form |
| WorkspacePaths.NormalizeComposes | crates/agent-core/src/workspace.rs:90-97 | normalising the base before joining makes no difference |
| WorkspacePaths.ConstructionChangesNothing | crates/agent-core/src/workspace.rs:80-97 | a constructed workspace stores the root's normal form, and resolves, contains and relativizes as one with the root itself |
| WorkspacePaths.Workspace.Contains | crates/agent-core/src/workspace.rs:129-146 | contained means that the root's normal form is a component prefix of the path's |
| WorkspacePaths.StayingPathsResolveInside | crates/agent-core/src/workspace.rs:90-146 | a path that never climbs above the root resolves to the root followed by its collapsed form, relativizes back to it, and is contained unless the root normalises to `.` |
| WorkspacePaths.DefaultWorkspaceContainsOnlyItsRoot | crates/agent-core/src/workspace.rs:69-76 | an instance: the default workspace contains its root and none of the files in it |
| WorkspacePaths.ResolvesInsideIff | crates/agent-core/src/workspace.rs:90-146 | every relative path resolves to what it leaves of the root and the names it goes down, inside iff these begin with the names of the root it climbed out of |
| WorkspacePaths.ResolveUndoesRelativize | crates/agent-core/src/workspace.rs:90-122 | for every contained path, resolving its relative form gives its normal form |
| WorkspacePaths.OutsideIsKept | crates/agent-core/src/workspace.rs:101-122 | a path outside is returned as it is |
| WorkspacePaths.AbsoluteWorkspace | crates/agent-core/src/workspace.rs:80-146 | an absolute workspace contains its root and only absolute paths |
| WorkspacePaths.ClimbingPathEscapes | crates/agent-core/src/workspace.rs:90-146 | an instance: `..` and a name other than the root's own resolves outside |
| PathTexts.StripVerbatim | crates/agent-core/src/workspace.rs:15-22 | the two tests for a verbatim prefix panic iff a character lies across byte 4 or byte 8, and otherwise drop the prefix |
| PathTexts.NormalizePathText | crates/agent-core/src/workspace.rs:14-58 | the text of a path becomes the text of its components' normal form, or the code panics |
| PathTexts.NormalFormReadsBack | crates/agent-core/src/workspace.rs:25-57 | the text of a normal form reads back as its components |
| PathTexts.NormalizingTwiceIff | crates/agent-core/src/workspace.rs:14-58 | a normalised text is its own normal form iff it can be sliced and does not start with a verbatim prefix |
| PathTexts.TwoPrefixes | crates/agent-core/src/workspace.rs:15-22 | an instance: a short name behind two verbatim prefixes takes two passes |
| PathTexts.ComponentsOfJoined | crates/agent-core/src/workspace.rs:95-95 | joining texts joins their components |
| PathTexts.DotDotIsClimbing | crates/agent-core/src/workspace.rs:25-57 | `..` behind a path is one more component |
| PathTexts.ShareKeepsItsSlashes | crates/agent-core/src/workspace.rs:15-17 | a verbatim share, in either case, keeps two backslashes in front of its name |
| PathTexts.ResolvesLikeComponents | crates/agent-core/src/workspace.rs:90-97 | on texts, resolving panics iff the joined text is cut inside a character, and without a verbatim prefix gives what the components give |
| PathTexts.ContainsLikeComponents | crates/agent-core/src/workspace.rs:129-146 | on texts, containment panics iff either text is cut inside a character, and without a verbatim prefix is that of the components |
| PathTexts.TwoCharactersPanic | crates/agent-core/src/workspace.rs:15-22 | an instance: a name of two three-byte characters in the default workspace |

## Left out

- Named pipes, the HTTP bridge, storage, the keystore, logging and the user interface: input, output and plumbing. Events sent are sequences, storage writes are not modelled.
- Providers, tools, agents, the cancellation token: arbitrary functions. Parsing of the chief's plan texts and scanning of critics' texts for verdicts: the parsed plan and the verdict are inputs.
- The wording of prompts, of the feedback to workers, of warnings and of summaries: parameters or structured values; status texts are modelled where code reads them.
- Fields of tasks that only travel through, timing, confidence values and elapsed times.
- The `from` field of phase transitions: it does not chain, so statements are about the targets.
- The workflow's id is not a value: forwarded done events, which carry an empty one, and those sent under the workflow's id are told apart by their kind.
- The cancellation token and the clock are inputs per attempt: after how many received events one of them interrupts it. The model therefore also covers tokens that fire and clear again.
- Files shared by concurrent workers. Workers of a stage and both critics are started on the same context, their signals interleave in any order, and their outcomes are collected in the order of the code.
- Tools that panic. An agent's task then ends without a done event; attempts whose channel closes early are covered, the agent loop is modelled for tools that return.
- The texts of outcomes and of paths stand for their UTF-8 bytes.
- PlanMerge.FreshId: does not model wrap-around of the 32-bit suffix counter, which the bound proved for it rules out for fewer than two billion tasks.
- Context.Compact: a string stands for its UTF-8 bytes, so lengths are byte counts; arguments of tool calls are their rendered JSON, in which keys are sorted.
- Routes.MatchRoute: one registered route at a time. Which of several matching routes is chosen depends on the order of a hash map; an exact match is tried first and is not modelled.
- Queries.ParseQuery: a body that is no JSON object is the empty body.
- WorkspacePaths.NormalizePath: starts from path components as they are on systems without drive prefixes; drive prefixes, case folding and symbolic links are not modelled. Statements of this module are about components, and those of PathTexts say for which texts they hold.
- The registry of route handlers, the quota table, model overrides, the error buffer and the five-hour scheduler: easy invariants, or in the scheduler's case none that holds.
