# Quality control platform: models and proofs

This project models the parts of the platform that keep state or build structure and proves what they guarantee.
Each source file has a value model (datatypes and functions saying what one operation does) and, where the source
updates objects or runs a loop, classes and methods proved equal to those functions. The main theorems speak about
every run, every interleaving or every input of the value model.

| area | files |
|---|---|
| shared lists, texts, stable sorting | `Lists.dfy`, `Text.dfy`, `Sorting.dfy` |
| inspection containers (`apps/executable-spec-web/server/quality-api.ts`) | `CompactionEngine.dfy` (the calculation, `apps/executable-spec-web/src/quality-system/engine.ts`), `Inspection.dfy` (handlers as functions), `QualityApi.dfy` (objects), `AttemptNumbering.dfy`, `AuditReplay.dfy`, `InspectionInvariant.dfy`, `InspectionArchive.dfy`, `InspectionRuns.dfy`, `InspectionFreshness.dfy`, `InspectionEffects.dfy` (every request told without the handlers) |
| execution order (`backend/models/csd_models.py`) | `Graphs.dfy` (topological sort), `Scheduler.dfy`, `SchedulerMentions.dfy` |
| clause trees (`tools/normpeg/normref_ingest_batch.py`, `translation-bot/core/pdf_parser.py`) | `Forest.dfy`, `ClauseIds.dfy`, `ClauseNumbers.dfy`, `ClauseTree.dfy`, `ClauseWalk.dfy`, `ClauseShapes.dfy`, `ChapterTree.dfy`, `ChapterMeaning.dfy` |
| review workflow (`translation-bot/core/spu_review_validator.py`, `task_store.py`, `pipeline.py`, `template_library.py`, `translation-bot/api/main.py`) | `Formulas.dfy`, `ReviewValidator.dfy`, `ReviewMeaning.dfy`, `ReviewTasks.dfy`, `TaskStore.dfy`, `ReviewWorkflow.dfy`, `ReviewTrace.dfy`, `ReviewHandlers.dfy`, `ReviewInterleavings.dfy`, `Templates.dfy` |
| project store (`backend/project/project_store.py`) | `Projects.dfy`, `ProjectRuns.dfy`, `ProjectMeaning.dfy`, `ProjectStore.dfy` |
| space containers (`backend/models/space_container.py`) | `SpaceContainer.dfy`, `SpaceContainerLaws.dfy`, `SpaceContainerMeaning.dfy` |
| review points (`translation-bot/core/specir_generator.py`) | `ReviewPoints.dfy` |

Reading notes.

- The value model says how a result is computed. What the result means is stated beside it a second time, by positions,
  texts and constants, without the functions that compute it: `InspectionEffects`, `HasPriority` and `TaskMeans` in
  `Scheduler`, `ClauseShapes`, `ClauseNumbers`, `ChapterMeaning`, `ReviewMeaning`, `ReviewTrace`, `ProjectMeaning` and
  `SpaceContainerMeaning` connect the two for all inputs.
- Inspection. A request is one step on the store of containers, successful or not; a failing request keeps the partial
  changes the handler had already made. The calculation is modelled over the reals, with an infinite or undefined
  result where the source divides by zero; a form field is a number, something else that converts to one, or neither.
  `Created` and `InProgress` are the container states the source writes as DRAFT and RUNNING. The invariant `Inv` ties
  every attempt to a replay of the audit trail.
- Scheduling. The library sort the source calls is replaced by a queue-based topological sort that is proved to fail
  exactly on cyclic rules. `IsExecutionOrder` is the relational statement of the result.
- Clause trees. `ParentOf` finds a parent by scanning the earlier clauses backwards; the source keeps a stack keyed by
  depth and a dictionary of the latest Chinese units, and the builder is proved to agree with the scan.
- Review workflow. Approving, rejecting, applying a template, executing and saving a template, and every
  background pipeline, are lists of steps, one locked store operation or one
  look at a task each. A run is any list of actions, so any interleaving.
- Project store. The document a reader gets is compared with the list of operations alone (`LastWrite`), not with the
  dictionaries; a restart, which presumes that persistence is on, is one of the operations.

## Properties that hold only under a condition

Each entry names the property one would rely on, the exact condition under which the code has it, and a run or input
that shows where it does not.

- "The execute handler enters a task only behind an open gate." Without interruption it does (`ExecuteAlone`). Among
  other handlers it looks at the task in two separate steps, each of them twice. It stands at its entry behind an open
  gate exactly if the last step that moved the gate since it began was not a closing one (`EntryBehindOpenGate`); in
  particular whenever nobody takes a closing step (`QuietEntry`). The steps that move a gate are listed exactly
  (`GateMovesExactly`), and the gate after a run is its last move (`OpenAfterRun`). The gate can have closed since the
  looks (`EntryBehindClosedGate`, reached from the empty store in `InterruptionIsReachable`), and it can have been
  closed in every state of the run (`NeverOpenYetEntered`).
- "If one task must come before another, that one must come after it." For ids that are not blank and carry no
  surrounding blanks, and up to the container's own dependencies, the two constraint lists mirror each other exactly if
  every rule is answered: a rule found under its raw id from one end needs a rule found from the other end, or a declared
  dependency (`ConstraintsMirror`). Trimmed rules are always answered (`TrimmedRulesMirror`). A single rule with a blank
  on one side is not (`BlankBreaksMirror`); blanks on both sides do no harm (`BlanksOnBothSidesMirror`).
- "The execution order respects the order rules." With acyclic rules it respects all of them exactly when no rule leads
  from a lower to a higher priority (`AllRulesRespected`); otherwise priority overrides a rule (`PriorityOverridesRule`).
  Cyclic rules cannot be respected by any order (`ContradictoryRulesCannotBeRespected`).
- "The stored status of a container is up to date after a request." `FreshAfterRequest` says exactly when, for every
  request and every reachable store, in terms of the container and the form before the call. Only executions can leave
  it out of date. A form that is refused because a field is no number does so exactly if the container was verified and
  did not list the SPU (`StaleAfterBadInputs`). The calculation fails exactly if the volume or the greatest dry density
  is not a positive number, texts that convert to one included (`PathFailsExactly`); such a form does so exactly unless
  the container was in progress and its verdict did not rest on a failure of that SPU alone (`StaleAfterEngineFailure`).
  `StaleIsReachable` gives a run for an empty form, for a volume of zero and for a number sent as a text.
- "A saved project store reads back unchanged." It does, up to sub-second times, exactly when every instrument binding
  has all four bounds (`RestoresExactly`); a missing bound comes back as the text "None" (`LoadAfterSave`), once
  (`SecondLoadChangesNothing`). Two requests reach a binding without bounds (`RestartCanChangeBounds`).

## Model

| member | source | states |
|---|---|---|
| CompactionEngine.PathFailsExactly | apps/executable-spec-web/src/quality-system/engine.ts:15-42 | the calculation fails exactly if the volume or the greatest dry density is not a positive number, and names the volume first |
| CompactionEngine.CompleteForms | apps/executable-spec-web/server/quality-api.ts:204-218 | a form is complete exactly if its five named fields convert to finite numbers |
| CompactionEngine.RoundsToNearest | apps/executable-spec-web/src/quality-system/engine.ts:11-13 | rounding gives the nearest multiple of 0.0001, of two equally near ones the one farther from zero |
| CompactionEngine.RoundsToAtLeast | apps/executable-spec-web/src/quality-system/engine.ts:11-13 | rounding to four decimals reaches a positive whole number from 0.00005 below it on |
| CompactionEngine.GateMeans | apps/executable-spec-web/src/quality-system/engine.ts:21-89 | an accepted form passes exactly if its rounded dry density reaches 92.99995 per cent of the greatest; at a moisture content of -100 exactly if its wet density does not round to zero or less |
| CompactionEngine.MoreMassNeverFails | apps/executable-spec-web/src/quality-system/engine.ts:21-89 | above a moisture content of -100 more mass never turns a passing form into a failing one, rounding included |
| AttemptNumbering.CreateKeepsNumbering | apps/executable-spec-web/server/quality-api.ts:172-202 | a new attempt takes the next free number of its SPU, so numbers stay 1..n in creation order |
| AttemptNumbering.IndicesComplete | apps/executable-spec-web/server/quality-api.ts:104-107 | every number from 1 to the attempt count is carried by exactly one attempt of the SPU, and looking it up finds that one |
| AttemptNumbering.IndicesIncrease | apps/executable-spec-web/server/quality-api.ts:172-175 | a later attempt of the same SPU has the larger number |
| AttemptNumbering.LatestIsLastCreated | apps/executable-spec-web/server/quality-api.ts:96-102 | the latest attempt is the last one created, its number is the attempt count, and it is missing exactly when there is no attempt |
| AttemptNumbering.MaxIndexIsCount | apps/executable-spec-web/server/quality-api.ts:173-174 | the greatest number used so far is the number of attempts |
| AuditReplay.ReplayIsChain | apps/executable-spec-web/server/quality-api.ts:111-142 | a trail that replays to a living attempt starts with its creation in DRAFT, each entry starts where the previous one ended, the last ends in its status, and the signers are the first mentions of the actors |
| InspectionInvariant.RecalcKeepsInv | apps/executable-spec-web/server/quality-api.ts:144-170 | recalculation keeps the invariant and never archives |
| InspectionInvariant.CreateWorks | apps/executable-spec-web/server/quality-api.ts:172-202 | creating an attempt disturbs neither the numbering, the other attempts nor their trails |
| InspectionInvariant.ExecuteKeepsInv | apps/executable-spec-web/server/quality-api.ts:334-380 | executing keeps the invariant whatever happens: refused, refused after growing the catalog, engine failure at either stage, or success |
| InspectionInvariant.SignKeepsInv | apps/executable-spec-web/server/quality-api.ts:382-438 | signing keeps the invariant, for every role, status and attempt number |
| InspectionInvariant.NewRoleShrinksPending | apps/executable-spec-web/server/quality-api.ts:412-415 | a role that had not signed leaves the pending list and shortens it; one that had changes nothing |
| InspectionArchive.VerifiedMeansFinished | apps/executable-spec-web/server/quality-api.ts:154-168 | recalculation yields VERIFIED exactly when there is an attempt and the latest attempt of every SPU in the catalog is final and fully signed |
| InspectionArchive.FinishedBuildsProof | apps/executable-spec-web/server/quality-api.ts:234-266 | for finished SPUs the proof cannot fail, lists each SPU of the catalog once with its latest attempt, passes all exactly when the container passes, and is signed by exactly the required roles |
| InspectionArchive.ArchiveKeepsInv | apps/executable-spec-web/server/quality-api.ts:440-462 | archiving keeps the invariant, whether it succeeds or not |
| InspectionArchive.ArchiveAllOrNothing | apps/executable-spec-web/server/quality-api.ts:440-462 | archiving succeeds exactly on an open container whose SPUs have all finished, never closes a container without a proof, and keeps the attempts |
| InspectionRuns.RunSound | apps/executable-spec-web/server/quality-api.ts:280-475 | every list of requests keeps the invariant of every container, and containers only grow |
| InspectionRuns.ArchivedForever | apps/executable-spec-web/server/quality-api.ts:337-385 | an archived container and its proof stay exactly as they are whatever is requested afterwards |
| InspectionRuns.HistoryForever | apps/executable-spec-web/server/quality-api.ts:404-410 | a final attempt never changes, and no audit entry is lost or rewritten |
| InspectionRuns.TrailIsFaithful | apps/executable-spec-web/server/quality-api.ts:111-142 | in every reachable container the entries of each attempt form a chain from creation to its current status, and the first mentions of actors in its sign entries are its signers in order |
| InspectionRuns.SignatureProtocol | apps/executable-spec-web/server/quality-api.ts:398-431 | in every reachable state signers are required roles without repetition, pending is the required list without them, an attempt is final exactly when nothing is pending, and the final status is the gate's verdict |
| InspectionRuns.NumberingProtocol | apps/executable-spec-web/server/quality-api.ts:96-109 | in every reachable container attempts are numbered 1..n per SPU, look-ups agree with creation order, and only catalog SPUs have attempts |
| InspectionRuns.ProofExactlyWhenArchived | apps/executable-spec-web/server/quality-api.ts:440-462 | in every reachable state a container is archived exactly when it has a proof, and the proof agrees with it |
| InspectionRuns.VerdictIsComputed | apps/executable-spec-web/server/quality-api.ts:355-370 | in every reachable container an attempt is running exactly if the calculation rejected its form; otherwise its densities are those of its form, and it passed exactly if their compaction degree reaches 93 |
| InspectionRuns.ProofIsComputed | apps/executable-spec-web/server/quality-api.ts:234-249 | every result of every archived proof carries the densities calculated from the form of the SPU's latest attempt, and passed exactly if their compaction degree reaches 93 |
| InspectionEffects.AddressedExactly | apps/executable-spec-web/server/quality-api.ts:104-109 | of the n attempts of an SPU exactly the numbers 1 to n name one, a missing or non-positive number names the last, and no request names two |
| InspectionEffects.SignReaches | apps/executable-spec-web/server/quality-api.ts:398-437 | a signature reaches the attempt it addresses and no other: that attempt gains the role and loses it from its pending ones, the second role finishes it with its gate's verdict, the trail gains the entries with its SPU and number, and the status shown is brought up to date; a running attempt, an unknown role and a finished attempt leave everything as it was |
| InspectionEffects.SignMisses | apps/executable-spec-web/server/quality-api.ts:398-401 | a signature that addresses no attempt is refused and changes nothing |
| InspectionEffects.ExecuteReaches | apps/executable-spec-web/server/quality-api.ts:334-380 | an execution lists its SPU, refuses an incomplete form, and otherwise appends one attempt with the next number, the form, what the engine made of it, and two or five entries of trail |
| InspectionEffects.ArchiveReaches | apps/executable-spec-web/server/quality-api.ts:440-462 | archiving closes a container whose last attempts have all finished, with one entry and a proof that repeats each last attempt, and otherwise only brings the status up to date |
| InspectionEffects.CreateReaches | apps/executable-spec-web/server/quality-api.ts:292-332 | a container is created under the id asked for, prefixed once, with the SPUs asked for or the two of the subgrade, and one entry; or the request is refused |
| InspectionEffects.RecalcRefreshes | apps/executable-spec-web/server/quality-api.ts:144-170 | status and verdict are those of the last attempts of the listed SPUs |
| InspectionEffects.EveryRequest | apps/executable-spec-web/server/quality-api.ts:280-475 | in every run each request changes the one container it names in this way, answers accordingly, and leaves all others alone |
| InspectionFreshness.RecalcUnfinished | apps/executable-spec-web/server/quality-api.ts:154-168 | while an SPU of the catalog is unfinished the container is in progress, and only a failure of another SPU decides its verdict |
| InspectionFreshness.ExecuteFresh | apps/executable-spec-web/server/quality-api.ts:337-374 | after an execution, whatever its outcome, the stored status is up to date exactly under a condition on the container and the form before it |
| InspectionFreshness.SignFresh | apps/executable-spec-web/server/quality-api.ts:385-432 | after signing the status is up to date exactly if the signature was taken or it was before |
| InspectionFreshness.ArchiveFresh | apps/executable-spec-web/server/quality-api.ts:443-456 | after archiving, successful or not, the status is up to date |
| InspectionFreshness.FreshAfterRequest | apps/executable-spec-web/server/quality-api.ts:280-474 | for every request and container: the stored status is up to date afterwards exactly if a recalculation ended the request, or it was up to date and left alone, or an SPU left unfinished fits the status shown |
| InspectionFreshness.StaleAfterBadInputs | apps/executable-spec-web/server/quality-api.ts:344-347 | from an up-to-date status, a form refused for its inputs leaves it out of date exactly when the container was verified and did not list the SPU |
| InspectionFreshness.StaleAfterEngineFailure | apps/executable-spec-web/server/quality-api.ts:349-374 | from an up-to-date status, a form of numbers keeps it up to date exactly if its volume and greatest dry density are positive numbers, or the container was in progress and its verdict did not rest on a failure of that SPU alone |
| InspectionFreshness.ReachesVerified | apps/executable-spec-web/server/quality-api.ts:292-438 | create, execute and two signatures lead to a verified container |
| InspectionFreshness.StaleIsReachable | apps/executable-spec-web/server/quality-api.ts:344-374 | from that container an empty form for an unlisted SPU, a volume of zero, and a number sent as a text each leave the stored status out of date |
| QualityApi.Execution.constructor | apps/executable-spec-web/server/quality-api.ts:177-193 | a new attempt is a draft without inputs, outputs or signatures, and every required role is pending |
| QualityApi.ContainerRecord.PushAudit | apps/executable-spec-web/server/quality-api.ts:111-123 | the entry is appended and nothing else changes |
| QualityApi.ContainerRecord.TransitionExecution | apps/executable-spec-web/server/quality-api.ts:125-142 | the status of one attempt changes and the trail gains the entry that records it |
| QualityApi.ContainerRecord.CreateAttempt | apps/executable-spec-web/server/quality-api.ts:172-202 | the object update is the creation step of the value model |
| QualityApi.ContainerRecord.Recalc | apps/executable-spec-web/server/quality-api.ts:144-170 | the object update is the recalculation of the value model |
| QualityApi.ContainerRecord.RunEngine | apps/executable-spec-web/server/quality-api.ts:355-374 | the object, with what a rejected form leaves in it, and the answer are those of the value model |
| QualityApi.ContainerRecord.Execute | apps/executable-spec-web/server/quality-api.ts:337-379 | the object, with whatever a failure left in it, and the answer are those of the value model |
| QualityApi.ContainerRecord.SignSpu | apps/executable-spec-web/server/quality-api.ts:385-437 | the object and the answer are those of the value model, whose signature reaches exactly the addressed attempt (`SignReaches`) |
| QualityApi.ContainerRecord.Archive | apps/executable-spec-web/server/quality-api.ts:443-461 | the object and the answer are those of the value model |
| QualityApi.Server.CreateContainer | apps/executable-spec-web/server/quality-api.ts:292-332 | one entry is added under the normalised id, or the request is refused; other containers are untouched |
| QualityApi.Server.ExecuteSpu | apps/executable-spec-web/server/quality-api.ts:334-380 | the step of the value model on one container, all other containers unchanged |
| QualityApi.Server.SignAttempt | apps/executable-spec-web/server/quality-api.ts:382-438 | the step of the value model on one container, all other containers unchanged; what it does is told by `EveryRequest` |
| QualityApi.Server.ArchiveContainer | apps/executable-spec-web/server/quality-api.ts:440-462 | the step of the value model on one container, all other containers unchanged |
| QualityApi.Server.GetContainer | apps/executable-spec-web/server/quality-api.ts:464-474 | reading recalculates one container and leaves the others alone |
| Graphs.StaticOrder | backend/models/csd_models.py:278-281 | the sort fails exactly on a graph with a cycle; otherwise it lists every node once, each after everything it waits for |
| Graphs.OrderedIsAcyclic | backend/models/csd_models.py:278-281 | a graph that has a topological order has no cycle |
| Graphs.StuckIsCyclic | backend/models/csd_models.py:278-281 | nodes that all wait for one another contain a cycle |
| Scheduler.Unique | backend/models/csd_models.py:225-234 | the loop keeps the trimmed non-blank values at their first occurrence |
| Scheduler.DistinctElems | backend/models/csd_models.py:225-234 | exactly the non-blank trimmed values are kept |
| Scheduler.NodesAreNodes | backend/models/csd_models.py:259-261 | the nodes are exactly the catalog ids and both ends of the rules, each once |
| Scheduler.Dependencies | backend/models/csd_models.py:266-276 | a node waits for another exactly when a non-self rule puts that one first |
| Scheduler.LookupIsPriority | backend/models/csd_models.py:237-241 | the priority of an id is that of the first catalog entry carrying it, and 0 exactly if none does |
| Scheduler.SortedIsExecutionOrder | backend/models/csd_models.py:278-286 | sorting by falling priority keeps the nodes, and of the rules exactly those that priority does not override |
| Scheduler.DeriveExecutionOrder | backend/models/csd_models.py:258-286 | the result lists every node once, the priorities of its ids never rise along it, and with acyclic rules a rule is kept exactly where the priority does not rise along it |
| Scheduler.OrderFollowsPriorities | backend/models/csd_models.py:258-286 | every derived order does so, stated by the catalog and the rules alone |
| SchedulerMentions.ContradictionKeepsMentionOrder | backend/models/csd_models.py:259-286 | under contradictory rules nodes of one priority stand in the order in which catalog and rules first mention them |
| Scheduler.EqualPriorityRespectsRules | backend/models/csd_models.py:283-286 | with acyclic rules two nodes of equal priority stand as the rule between them demands |
| Scheduler.AllRulesRespected | backend/models/csd_models.py:258-286 | with acyclic rules every rule is respected exactly when no rule leads from a lower to a higher priority |
| Scheduler.PriorityOverridesRule | backend/models/csd_models.py:283-286 | rules without a contradiction of which every derived order breaks one, because priority decides against it |
| Scheduler.ContradictoryRulesCannotBeRespected | backend/models/csd_models.py:278-281 | for cyclic rules no duplicate-free order respects them all, so giving up on the rules loses nothing achievable |
| Scheduler.BuildTasks | backend/models/csd_models.py:450-468 | the tasks are the derived order followed by the container's other specs as the container lists them, none missing and none besides; each has the priority of its id, the status of the last spec with its id or pending, and exactly the constraints of the rules found under its id and of that spec |
| Scheduler.TaskForMeans | backend/models/csd_models.py:450-468 | priority, status and both constraint lists of a task, read off the norm and the container |
| Scheduler.ConstraintsMirror | backend/models/csd_models.py:458-459 | the two constraint lists mirror each other for all non-blank trimmed ids, up to the container's own dependencies, exactly if every rule found under its raw id from one end is answered from the other |
| Scheduler.TrimmedRulesMirror | backend/models/csd_models.py:458-459 | rules with trimmed ids always mirror |
| Scheduler.BlankBreaksMirror | backend/models/csd_models.py:458-459 | a single rule with a blank on one side breaks the mirror |
| Scheduler.BlanksOnBothSidesMirror | backend/models/csd_models.py:458-459 | a rule with blanks on both sides does not break it |
| Forest.WalkVisitsEachOnce | tools/normpeg/normref_ingest_batch.py:636-643 | walking a forest down from its roots meets every node exactly once |
| Forest.SiblingsDisjoint | tools/normpeg/normref_ingest_batch.py:636-643 | the trees of two siblings share no node |
| ClauseIds.SplitJoin | tools/normpeg/normref_ingest_batch.py:563-570 | joining the parts of a dotted id and splitting again gives the parts back |
| ClauseIds.PrefixDepth | tools/normpeg/normref_ingest_batch.py:550-570 | a dotted prefix lies as deep as it has parts, so every proper prefix lies higher than the id |
| ClauseIds.NormalizeRecognised | tools/normpeg/normref_ingest_batch.py:502-529 | normalising an id of a recognised shape changes nothing, wherever it stands |
| ClauseNumbers.EverySpellingIsRead | tools/normpeg/normref_ingest_batch.py:502-529 | every spelling of a recognised id, with blanks anywhere, full-width dots and a colon behind it, is read as that id |
| ClauseNumbers.BlankIsNumbered | tools/normpeg/normref_ingest_batch.py:503-505 | a blank section number is named by its place in the document |
| ClauseNumbers.DecimalReads | tools/normpeg/normref_ingest_batch.py:505 | the place is written in decimal without leading zeros |
| ClauseNumbers.SlugMeans | tools/normpeg/normref_ingest_batch.py:97-101 | a slug is made of the words of a text in small letters, joined by dashes, or "unknown" if there are none |
| ClauseNumbers.OtherIsNamed | tools/normpeg/normref_ingest_batch.py:529 | a section number of no recognised shape is named after its words and its place |
| ClauseShapes.RecognisedExactly | tools/normpeg/normref_ingest_batch.py:521-528 | exactly numbers, annexes, Chinese units and appendices of the stated texts are recognised |
| ClauseShapes.DepthByShape | tools/normpeg/normref_ingest_batch.py:550-560 | a number or annex lies as deep as it has parts, an appendix at 1, a chapter, section, article or paragraph at 1 to 4, anything else at 1 |
| ClauseTree.PrefixRule | tools/normpeg/normref_ingest_batch.py:563-570 | an id with dotted prefixes hangs under its longest proper prefix among the clauses seen so far |
| ClauseTree.ParentIsEarlierAndHigher | tools/normpeg/normref_ingest_batch.py:607-626 | whichever rule supplies the parent, it is an earlier clause of strictly smaller depth |
| ClauseShapes.HangsUnderPrefix | tools/normpeg/normref_ingest_batch.py:563-570 | a number of two parts or an annex of three hangs under its longest prefix among the earlier ids |
| ClauseShapes.HangsUnderUnit | tools/normpeg/normref_ingest_batch.py:608-618 | a Chinese unit hangs under the last one of the next higher kind that occurs among the earlier ids |
| ClauseShapes.HangsUnderNearest | tools/normpeg/normref_ingest_batch.py:620-624 | an id neither rule places hangs under the nearest earlier id that lies less deep, and else under none |
| ClauseShapes.TopHasNoParent | tools/normpeg/normref_ingest_batch.py:620-626 | what lies at the top, appendices and chapters included, has no parent whatever came before |
| ClauseTree.KeysAndPositionsRise | tools/normpeg/normref_ingest_batch.py:629-632 | in the depth stack, deeper entries stand later in the text |
| ClauseTree.StackFindsNearest | tools/normpeg/normref_ingest_batch.py:620-624 | the deepest stack entry above a clause is the nearest earlier clause of smaller depth, and there is none exactly when no such clause exists |
| ClauseTree.PushKeepsStack | tools/normpeg/normref_ingest_batch.py:629-632 | dropping the entries that are not above the new clause and pushing it keeps exactly the clauses still visible from the end |
| ClauseTree.ProbeStack | tools/normpeg/normref_ingest_batch.py:620-624 | probing the stack downwards finds the nearest earlier clause of smaller depth |
| ClauseTree.CnParentFrom | tools/normpeg/normref_ingest_batch.py:608-618 | the remembered chapter, section or article is the latest earlier one |
| ClauseTree.CollectNodes | tools/normpeg/normref_ingest_batch.py:584-634 | the loop keeps each id at its first section and gives it the parent the plain backward scan finds |
| ClauseTree.LinkChildren | tools/normpeg/normref_ingest_batch.py:636-643 | roots and children lists hold exactly the nodes without, and with, that parent, in order |
| ClauseTree.SectionsInDocumentOrder | tools/normpeg/normref_ingest_batch.py:574-582 | the sections are worked through by rising page, line and number, numbers compared character by character; none is lost, and equal ones stay as they came |
| ClauseTree.NodesFormForest | tools/normpeg/normref_ingest_batch.py:607-643 | parents stand earlier and higher, so following them never runs in a circle |
| ClauseTree.ChildrenAreLinked | tools/normpeg/normref_ingest_batch.py:636-643 | the children lists are the parent links read the other way round |
| ClauseTree.WalkingVisitsEachNodeOnce | tools/normpeg/normref_ingest_batch.py:636-643 | walking the children from the roots visits every node exactly once |
| ClauseTree.BuildClauseTree | tools/normpeg/normref_ingest_batch.py:573-670 | the tree has one node per id of the sorted sections, its links are those of the scan, and root count and orphan count agree; its depths and roots are told by `TopNodesAreRoots` |
| ClauseShapes.TopNodesAreRoots | tools/normpeg/normref_ingest_batch.py:596-643 | in the tree every node lies where its id says, and every appendix, chapter and number of one part is a root |
| ClauseShapes.ParentsAreChosen | tools/normpeg/normref_ingest_batch.py:584-626 | the parent of each node is chosen among the ids of the nodes before it |
| ClauseShapes.NodesDescribeSections | tools/normpeg/normref_ingest_batch.py:587-605 | each node bears the trimmed title, or else the id, and the place of the first section with its id |
| ClauseWalk.WalkingTheTree | tools/normpeg/normref_ingest_batch.py:636-670 | walking the returned tree from its roots through its children lists meets every id of its node list exactly once and no other, within the reported depth |
| ChapterTree.ScanHeadings | translation-bot/core/pdf_parser.py:112-143 | the loop accepts headings with plausible, pairwise different ids at rising lines |
| ChapterMeaning.LinesAre | translation-bot/core/pdf_parser.py:103-108 | the lines of a document are the non-blank lines of its pages, trimmed and numbered |
| ChapterMeaning.LinesOrdered | translation-bot/core/pdf_parser.py:103-108 | they stand page by page, and within a page in the order of the page |
| ChapterMeaning.PlausibleExactly | translation-bot/core/pdf_parser.py:217-231 | plausible are one to five numbers of which the first is not zero and alone at most 20, and the others at most 300 |
| ChapterMeaning.ItemExactly | translation-bot/core/pdf_parser.py:233-266 | exactly which single numbers read as list items: by the length of the title, by its requirement words, by its code-like text, or close below a deeper heading |
| ChapterMeaning.HeadingsExactly | translation-bot/core/pdf_parser.py:112-143 | exactly the lines that read as a plausible, new, numbered heading open a segment |
| ChapterTree.SegmentsPartitionTheText | translation-bot/core/pdf_parser.py:168-177 | headings and their uncut bodies put together are the text from the first heading on |
| ChapterTree.ParentIsImmediatePrefix | translation-bot/core/pdf_parser.py:321-329 | the parent of a plausible id is the id without its last part, and a one-part id has none |
| ChapterTree.ChainEnds | translation-bot/core/pdf_parser.py:321-329 | following parents shortens the id by one part each time and ends after as many steps as it has parts |
| ChapterTree.HeadingsFormForest | translation-bot/core/pdf_parser.py:175-186 | the parent links of the headings form a forest at most five levels deep |
| ChapterTree.HeadingsVisitedOnce | translation-bot/core/pdf_parser.py:175-186 | every heading is a root or the child of one other, and walking down meets each exactly once |
| ChapterTree.MakeNodes | translation-bot/core/pdf_parser.py:168-177 | each node carries its heading and the first 120 lines of its body |
| ChapterMeaning.NodeTextMeans | translation-bot/core/pdf_parser.py:168-175 | the text of a node is made of the lines from its heading to the next, cut to 120, one under the other and trimmed |
| ChapterMeaning.FallbackMeans | translation-bot/core/pdf_parser.py:145-161 | a page in place of a heading is named after its first line or its number, cut to 80 characters, with its first 60 lines |
| ChapterTree.HangNodes | translation-bot/core/pdf_parser.py:179-186 | each node is hung under the node its parent id names, or becomes a root |
| ChapterTree.BuildChapterTree | translation-bot/core/pdf_parser.py:100-193 | the tree has one node per accepted heading with its body, children and level; without headings it has one node per page |
| Formulas.IsFormulaValid | translation-bot/core/spu_review_validator.py:62-90 | the scan accepts exactly the non-empty texts that parse to arithmetic over names and constants |
| Formulas.FineUnfolds | translation-bot/core/spu_review_validator.py:70-90 | a node passes the scan exactly when it is of an allowed kind and everything below it passes |
| ReviewValidator.ValidateGeneratedSpu | translation-bot/core/spu_review_validator.py:100-223 | the sections append their issues in order, and score and status are those of the issues; which these are is told by `ReportsExactly`, what follows by `ReviewMeans` |
| ReviewMeaning.ReportsExactly | translation-bot/core/spu_review_validator.py:113-209 | an issue is reported exactly if its code, level and field belong together and the document is wrong at that field: each section, rule part and formula has its condition; none is reported twice, and they stand in the order of the sections |
| ReviewMeaning.ReviewMeans | translation-bot/core/spu_review_validator.py:211-223 | a review passes without an error and with a confidence of at least 0.9; the score is 1 less 0.2 for each error and 0.08 for each warning, and not below 0 |
| ReviewMeaning.ErrorFreeScore | translation-bot/core/spu_review_validator.py:211-213 | without an error the score is 1, less 0.08 for a clause that is not among the candidates and less 0.08 for a confidence below 0.9 |
| ReviewValidator.AutoValidatedMeans | translation-bot/core/spu_review_validator.py:113-216 | a document is validated automatically exactly when it is completely structured, all its formulas are arithmetic, its norm is one of the sources' norms if those are known, and confidence is at least 0.9; a clause that matches none does not stop it |
| ReviewValidator.ScoreMeans | translation-bot/core/spu_review_validator.py:211-216 | there are at most two warnings, the score is zero exactly with five or more errors, and a review passes exactly with a score of at least 0.92 and a confidence of at least 0.9 |
| ReviewTasks.NewTaskInv | translation-bot/core/task_store.py:28-52 | a new task satisfies the task invariant |
| ReviewTasks.RestartInv | translation-bot/core/task_store.py:80-115 | a restart keeps the invariant; the history may then continue from the draft |
| ReviewTasks.CompleteInv | translation-bot/core/pipeline.py:229-272 | finishing keeps the invariant: a review is required exactly if validation did not pass, and what passed has an SPU with an id |
| ReviewTasks.ValidatedHasSpu | translation-bot/core/spu_review_validator.py:105-114 | a document that passes validation has an SPU id |
| ReviewTasks.ApproveInv | translation-bot/core/task_store.py:252-277 | approving keeps the invariant in every state |
| ReviewTasks.RejectInv | translation-bot/core/task_store.py:279-306 | rejecting keeps the invariant in every state |
| ReviewTasks.ErrorInv | translation-bot/core/task_store.py:319-331 | marking an error keeps the invariant |
| ReviewTasks.AuditInv | translation-bot/core/task_store.py:370-379 | template events keep the manual decisions of history and audit in step |
| ReviewTasks.GateMeansNoReviewRequired | translation-bot/api/main.py:107-115 | the execution gate lets a finished task through exactly when no review is required, and then it was validated or approved |
| TaskStore.TaskResult.constructor | translation-bot/core/task_store.py:30-49 | a new task is processing, a draft, and its history holds the creation |
| TaskStore.TaskResult.AppendHistory | translation-bot/core/task_store.py:352-362 | an entry is appended unless the state does not change |
| TaskStore.TaskResult.AppendAudit | translation-bot/core/task_store.py:364-368 | the event is appended and nothing else changes |
| TaskStore.Store.Create | translation-bot/core/task_store.py:28-52 | the id names a fresh task, all other tasks are unchanged |
| TaskStore.Store.RestartProcessing | translation-bot/core/task_store.py:80-115 | the restart step on one task, all others unchanged; an unknown id changes nothing |
| TaskStore.Store.MarkDone | translation-bot/core/task_store.py:117-191 | the finishing step on one task, all others unchanged; an unknown id changes nothing |
| TaskStore.Store.ApproveReview | translation-bot/core/task_store.py:252-277 | the approval step on one task, all others unchanged; an unknown id changes nothing |
| TaskStore.Store.RejectReview | translation-bot/core/task_store.py:279-306 | the rejection step on one task, all others unchanged; an unknown id changes nothing |
| TaskStore.Store.UpdateAutoRegistry | translation-bot/core/task_store.py:308-317 | the registration answer is stored on one task, all others unchanged |
| TaskStore.Store.MarkError | translation-bot/core/task_store.py:319-331 | the error step on one task, all others unchanged |
| TaskStore.Store.MarkExecutionEntry | translation-bot/core/task_store.py:219-228 | one task is entered, all others unchanged |
| TaskStore.Store.AppendAuditEvent | translation-bot/core/task_store.py:370-379 | one task's audit gains the event, all others unchanged |
| ReviewWorkflow.StepTaskInv | translation-bot/api/main.py:286-400 | every step of every handler and of the pipeline keeps the task invariant |
| ReviewWorkflow.RunKeepsInv | translation-bot/core/pipeline.py:77-292 | every interleaving keeps the invariant of every task and loses no task |
| ReviewWorkflow.ReviewGate | translation-bot/api/main.py:107-115 | in every interleaving a review is required exactly in the states NEEDS_REVIEW and REJECTED, a finished task is no draft, the gate passes it exactly when no review is required, and an automatically validated task has an SPU with an id |
| ReviewWorkflow.ReviewHistory | translation-bot/core/task_store.py:352-366 | in every interleaving the history is a chain from the creation, and its manual entries are found in order in the audit |
| ReviewWorkflow.GateMovesExactly | translation-bot/api/main.py:100-115 | an open gate is closed exactly by rejecting, restarting, failing or finishing with a document that needs review; a closed one is opened exactly by approving a finished task or finishing with a valid document |
| ReviewWorkflow.GateStaysOpen | translation-bot/api/main.py:100-115 | an open gate stays open while nobody takes a closing step |
| ReviewWorkflow.ExecuteAlone | translation-bot/api/main.py:386-403 | without interruption the execute handler enters a task exactly when its gate is open, its SPU has an id and the platform answers, and leaves the gate as it was |
| ReviewHandlers.ApproveAlone | translation-bot/api/main.py:286-301 | without interruption the approve handler leaves an unfinished task alone, approves a finished one, registers it if the platform answers and logs a template if there is an SPU; nothing else changes |
| ReviewHandlers.RejectAlone | translation-bot/api/main.py:304-316 | the reject handler decides finished tasks only and closes their gate; nothing else changes |
| ReviewHandlers.ApplyAlone | translation-bot/api/main.py:354-377 | applying a template makes a finished or failed task like a new one, except for its history and its audit |
| ReviewTrace.RunShows | translation-bot/core/task_store.py:80-331 | after every interleaving each field of a task is what the last step that sets it left, and history and audit are what the steps wrote, in order |
| ReviewTrace.TaskShowsItsSteps | translation-bot/core/task_store.py:28-331 | from the empty store a task shows what all steps ever taken on it make of a task just created |
| ReviewInterleavings.OpenAfterRun | translation-bot/api/main.py:107-115 | after any run the gate is open exactly if its last move opened it, or it never moved and was open at the start |
| ReviewInterleavings.QuietEntry | translation-bot/api/main.py:107-139 | in every interleaving without a closing step, an execute handler that has reached its entry stands behind an open gate, wherever the gate stood when it began |
| ReviewInterleavings.EntryBehindOpenGate | translation-bot/api/main.py:386-403 | in every interleaving an execute handler stands at its entry behind an open gate exactly if the last step that moved the gate since it began was not a closing one |
| ReviewInterleavings.EntryKeepsGate | translation-bot/api/main.py:386-403 | the entry itself leaves the gate as it is |
| ReviewInterleavings.EntryBehindClosedGate | translation-bot/api/main.py:386-403 | from every state with a registered task behind an open gate, a rejection between the last look and the entry makes the handler enter behind a closed gate |
| ReviewInterleavings.InterruptionIsReachable | translation-bot/api/main.py:286-403 | such an entry happens in a run from the empty store |
| ReviewInterleavings.OpenIsReachable | translation-bot/api/main.py:286-293 | an approval from the empty store leads to a registered task with an SPU behind an open gate |
| ReviewInterleavings.NeverOpenYetEntered | translation-bot/api/main.py:386-403 | a run from the empty store in which an execute handler enters a task whose gate was closed in every state |
| Templates.FindSimilarTemplates | translation-bot/core/template_library.py:370-431 | the loop and the final sort give the recommendations of the value model |
| Templates.KeyIgnores | translation-bot/core/template_library.py:23-24 | a blank, dash, underscore or slash more or less does not change the key of a text |
| Templates.KeyKeeps | translation-bot/core/template_library.py:23-24 | a text without such characters is its own key, in lower case |
| Templates.ScoreExactly | translation-bot/core/template_library.py:387-420 | the tiers: 0.95 for norm, clause and measured item, 0.85 for category, work item and measured item, 0.80 for norm and measured item, else 0 |
| Templates.RecommendationsMean | translation-bot/core/template_library.py:387-431 | the list holds exactly the matching templates, one entry for each, ordered by tier and then by use; templates that agree in both stay in stored order |
| Templates.AutoChoice | translation-bot/core/pipeline.py:25-45 | the automatic choice reuses a template exactly when one matches in norm, clause and measured item, starts from one exactly when only weaker matches exist, and ignores the library exactly when nothing matches; the template has the best tier, the most uses within it, and is the first such |
| Templates.AskedChoice | translation-bot/core/pipeline.py:31-33 | an explicit strategy is followed with the named template, else with the first best match, else without a template |
| Projects.TextListNormal | backend/project/project_store.py:342-353 | a text list keeps exactly the non-blank trimmed texts, without repetition |
| Projects.TextListOfNormal | backend/project/project_store.py:342-353 | normalising a normal list changes nothing |
| ProjectMeaning.TextListTidies | backend/project/project_store.py:342-353 | a text list holds the trimmed non-blank texts, each once, in the order in which they first occur |
| ProjectMeaning.RolesAre | backend/project/project_store.py:356-374 | record by record, those without an identity are left out and every other one gives one role |
| ProjectMeaning.InstrumentsAre | backend/project/project_store.py:377-402 | record by record, those without an identity are left out and every other one gives one instrument with its bounds |
| ProjectMeaning.CreateMeans | backend/project/project_store.py:36-82 | a refresh shows what the request says and keeps overrides, roles, instruments, creation time and branches; a new project has nothing inside and an empty main branch; refusals come in order; other projects stay as they are |
| ProjectMeaning.RepliesMean | backend/project/project_store.py:91-156 | writing an override and binding roles or instruments are refused for a blank or unknown name in order and then change nothing, or done with the normalised bindings |
| ProjectMeaning.ProjectRemembers | backend/project/project_store.py:30-226 | after every run, refreshes and restarts included, a project shows the last request that created or refreshed it, its time of birth, and the roles and instruments last set since then, a restart filling missing bounds with "None" |
| ProjectMeaning.BranchIs | backend/project/project_store.py:337-339 | a blank branch is the main one |
| ProjectMeaning.LoadedBranches | backend/project/project_store.py:203-226 | loading keeps the branches of the file, and a project without a main branch gets its own overrides as one |
| ProjectRuns.RolesNormal | backend/project/project_store.py:356-374 | every kept role binding has an identity and normal lists |
| ProjectRuns.InstrumentsNormal | backend/project/project_store.py:377-402 | every kept instrument binding has an identity, normal lists and bounds that are missing or non-blank |
| ProjectRuns.RunKeepsInv | backend/project/project_store.py:30-146 | every run, restarts included, keeps all projects normal and mirrored |
| ProjectRuns.OverridesAreMainBranch | backend/project/project_store.py:91-108 | in every reachable state the overrides of each project are its main branch, and exactly the known projects have branches |
| ProjectRuns.StoredIsLastWrite | backend/project/project_store.py:91-108 | the document stored on a branch is the one last written there, counting only writes to a project that existed and nothing before a clearing |
| ProjectRuns.GetOverrideFindsLastWrite | backend/project/project_store.py:110-124 | after any run, restarts included, a reader gets what was last written on the branch, else what was last written on main, else nothing |
| ProjectRuns.PutIsSeen | backend/project/project_store.py:91-124 | a write is seen on its branch, and a write on main also on every branch without a document of its own; everything else reads as before |
| ProjectRuns.OtherStepsKeepOverrides | backend/project/project_store.py:51-82 | creating or refreshing a project, binding roles or instruments and restarting change no override of any project |
| ProjectRuns.LoadAfterSave | backend/project/project_store.py:165-254 | loading what was saved succeeds and changes nothing but sub-second times and missing bounds, which become the text "None" |
| ProjectRuns.RestoresExactly | backend/project/project_store.py:387-390 | after any run, saving and loading restores the store up to sub-second times exactly when no instrument bound is missing |
| ProjectRuns.RestartCanChangeBounds | backend/project/project_store.py:387-390 | two ordinary requests reach a binding without bounds, and saving and loading changes it |
| ProjectRuns.SecondLoadChangesNothing | backend/project/project_store.py:165-254 | saving and loading a loaded store brings back exactly the same store |
| ProjectStore.NormalizeTextList | backend/project/project_store.py:342-353 | the loop with its seen set gives the normalised list |
| ProjectStore.NormalizeRoleBindings | backend/project/project_store.py:356-374 | the loop keeps the records that name a person, normalised, in order |
| ProjectStore.NormalizeInstrumentBindings | backend/project/project_store.py:377-402 | the loop keeps the records that name an instrument, normalised, in order |
| ProjectStore.Store.Persist | backend/project/project_store.py:228-254 | the file holds the saved form of every project and all branches, if persistence is on |
| ProjectStore.Store.Load | backend/project/project_store.py:165-226 | the store becomes what the file describes with a main branch for every project, or the file is refused and nothing changes |
| ProjectStore.Store.Open | backend/project/project_store.py:19-28 | a new store holds what its file describes, or is refused exactly if the file is |
| ProjectStore.Store.Reopen | backend/project/project_store.py:19-28 | with persistence on, opening the file of a running store, or no file after a clearing, is the restart of the value model, and can be repeated |
| ProjectStore.Store.CreateProject | backend/project/project_store.py:36-82 | the creation step of the value model, told by `CreateMeans`, and the file is up to date after success and untouched after failure |
| ProjectStore.Store.GetProject | backend/project/project_store.py:84-89 | the stored project is returned under its trimmed id, or the id is refused as blank or unknown |
| ProjectStore.Store.SetOverride | backend/project/project_store.py:91-108 | the write of the value model, with its errors in order, and the file follows |
| ProjectStore.Store.GetOverride | backend/project/project_store.py:110-124 | the two-step search gives the answer of the value model |
| ProjectStore.Store.SetRoleBindings | backend/project/project_store.py:131-139 | the bindings of one project are replaced by the normalised ones, and the file follows |
| ProjectStore.Store.SetInstrumentBindings | backend/project/project_store.py:148-156 | the bindings of one project are replaced by the normalised ones, and the file follows |
| ProjectStore.Store.ClearStore | backend/project/project_store.py:30-34 | no project is left, and no file if persistence is on |
| SpaceContainer.CollectTexts | backend/models/space_container.py:41-45 | the loop gives the non-blank trimmed texts of the list |
| SpaceContainer.ReadListed | backend/models/space_container.py:219-227 | the loop keeps the first binding of every SPU, or stops at the first invalid one |
| SpaceContainer.Reconcile | backend/models/space_container.py:229-238 | the two loops complete bindings and bound specs from each other |
| SpaceContainer.ReadSpecLists | backend/models/space_container.py:211-238 | reading bound specs and bindings through the loops gives the answer of the value model |
| SpaceContainerLaws.BindingOrder | backend/models/space_container.py:219-234 | listed bindings come first unchanged, then drafts for the remaining bound specs in order, each SPU once |
| SpaceContainerLaws.SpecsOrder | backend/models/space_container.py:236-238 | the bound specs stay as given, and the missing SPUs follow in the order of the bindings |
| SpaceContainerLaws.ReconciledNormal | backend/models/space_container.py:219-238 | afterwards bindings and bound specs name the same SPUs, and the bindings name each once |
| SpaceContainerLaws.ReadNormal | backend/models/space_container.py:155-263 | every accepted payload gives a container in normal form |
| SpaceContainerMeaning.ReadsExactly | backend/models/space_container.py:176-270 | a payload is read as a container exactly if it is an object that says it, field by field: each default, each fallback for a blank, and the values each field may have |
| SpaceContainerMeaning.RefusedForTheFirst | backend/models/space_container.py:176-270 | a payload is refused exactly if something is wrong with it, and for the first thing that is in the order of reading |
| SpaceContainerMeaning.CompletedIs | backend/models/space_container.py:219-238 | listed bindings, then a draft for each further bound spec, and every SPU bound |
| SpaceContainerMeaning.WrittenIdIsTail | backend/models/space_container.py:155-161 | what is written names the container after the last part of its address |
| SpaceContainerLaws.RoundTrip | backend/models/space_container.py:135-263 | a container in normal form survives writing and reading unchanged |
| SpaceContainerLaws.ReadingIsRetraction | backend/models/space_container.py:135-263 | for every accepted payload, reading what was written down gives the same container again |
| SpaceContainerLaws.WritingIsInjective | backend/models/space_container.py:135-153 | different containers in normal form are written differently |
| ReviewPoints.Deduplicate | translation-bot/core/specir_generator.py:313-324 | the loop with its seen set keeps the first point of every key |
| ReviewPoints.GroupByReason | translation-bot/core/specir_generator.py:326-333 | the groups appear in first-seen order, each with its points in order |
| ReviewPoints.CompressReviewPoints | translation-bot/core/specir_generator.py:309-364 | the loops give the grouped list cut to its bound |
| ReviewPoints.DedupedKeys | translation-bot/core/specir_generator.py:313-324 | every key of clause, priority and reason is kept once, in order of first mention |
| ReviewPoints.RepeatsExactly | translation-bot/core/specir_generator.py:313-320 | points repeat each other exactly if they agree in clause, priority and reason, a missing text being an empty one |
| ReviewPoints.BelongsExactly | translation-bot/core/specir_generator.py:326-331 | points belong together exactly if they agree in priority and reason, by default "medium" and "review_required" |
| ReviewPoints.DedupedKeepsFirst | translation-bot/core/specir_generator.py:313-324 | of the points with one key the first is kept |
| ReviewPoints.KeptPlusOmitted | translation-bot/core/specir_generator.py:335-350 | before the cut, the points kept and the points the summaries count are together the de-duplicated points |
| ReviewPoints.GroupContribution | translation-bot/core/specir_generator.py:335-350 | each group contributes its first six points in order and one summary with the exact number of the others exactly when it is larger |
| ReviewPoints.GroupsInFirstSeenOrder | translation-bot/core/specir_generator.py:326-337 | the groups appear in the order in which the points first mention them |
| ReviewPoints.BoundedList | translation-bot/core/specir_generator.py:352-363 | the list is cut exactly when the group sizes, none counted above seven, exceed thirty in total; then it has thirty-one entries and the last states the exact number cut |

## Left out

- HTTP, routing, request bodies, CORS, JSON text and file formats: input and output. A saved file is the value it describes.
- Clocks and generated ids: times are opaque values and fresh ids are parameters; `updatedAt`, details, messages and coordinates of records are not kept.
- Inspection requests arrive with trimmed texts; the freezing of the proof object is not modelled.
- Compaction engine: floating-point error and overflow, the calculation trace, the texts of gate results and the recommendation of inputs for the form page.
- Scheduler: the duration estimate and the fields copied into the scheduler input beside the tasks; the order of independent nodes inside the library sort is that of this project's own sort.
- Clause trees: the text mining that finds sections; sorting the sections is stated through the stable sort. Letters and digits of ids are ASCII, and full-width forms are those the normaliser lists.
- Chapter tree: the pattern that recognises a heading line, the noise filters for titles and pages and the clean-up of the raw id are an arbitrary recogniser; the rules on plausible ids, list items and repetitions are modelled.
- Chapter tree: children are positions in the node list, not shared node objects.
- Validator: the extraction of clause and norm candidates, their normalisation and the parser of formulas are parameters; messages of issues and the rounding of the score are not kept.
- Task store: parse and template fields, documents and bundles on disk, and reloading a task from disk; a stored entry or registration is a flag, a generated SPU is known by its id.
- Pipeline: calls to the parser, the generator and the platform appear as the arbitrary outcome of its steps.
- Templates: lower case is a parameter; adding, merging and deleting templates.
- Project store: a project is a value inside the dictionary, because callers only ever get copies; override documents are opaque; values that are not texts, except a missing or null field of a binding, are not modelled; write failures.
- Space container: how a number, list or object is rendered as text and how upper case is formed are parameters; upper case is required to leave the state names alone.
- Review points: the wording of the two kinds of summary entries.
- `apps/executable-spec-web/server/platform-api.ts`, the pages, the AI clause tree and `TemplateLibrary.add_template`: routing, presentation, or no guarantee to state.
