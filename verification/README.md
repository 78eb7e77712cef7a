# Verification model of SovereignFlow

SovereignFlow answers questions over classified documents. Documents are ingested into two stores, a
transactional database and a vector index; retrieval is widened over a relationship graph; configurable
pipelines decide what a language model receives; and datasets, generated or real, are imported in phases
that may fail and be run again. This project models the parts whose correctness is not visible from any one
function, and proves it for all inputs, all runs and all failure points.

`dafny verify dfyconfig.toml` checks everything.

## What is modelled

- **Graph expansion** (`Graph`, `GraphAnswers`, `GraphTraversal`). The store is a set of rows; a *walk* is a sequence
  of active rows through visible chunks. The layered search is proved to find the lexicographically best shortest walk
  to every node within the limits, for any order of rows, and its loops are proved to compute it. What an answer is,
  is also told in terms of the request alone: *trails* from entries of the seed list over rows and chunks of the
  tables.
- **Security labels** (`Security`). One check of a folded requirement is proved equal to checking every document. The
  three encodings of visibility are compared on every request and chunk: exactly where the vector filter, and exactly
  where the check in memory, differ from the SQL clause.
- **Pipelines** (`Pipelines`, `PipelineOrder`, `PipelineValidator`, `PipelineRuns`, `PipelineRoutes`, `PipelineTexts`,
  `PipelineResults`, `PipelineEngine`). The recursive validator is proved sound and complete against a specification
  over paths, and over the default actions against the order of kinds of steps; every run of an accepted pipeline is
  proved safe. Results, errors and prompts of every run are traced to the steps and answers they come from. The engine
  with its actions is proved to perform these runs, including the context that a raising action leaves behind.
- **Documents behind a prompt** (`PipelineDocuments`, `PipelineChecks`, `PipelineRelabelling`, `PipelineWorlds`,
  `StraightPipelines`, `PipelineLimits`). A path alone tells when hits were last changed, checked and rendered (its
  *stamps*); where the stamps agree, the server is cleared for what it receives. Exactly: whatever its documents are
  classified as while the run takes its path and its servers, the called server may have them if and only if a check
  for this server has seen each of them. A *relabelled* world keeps everything that is ever rendered and changes
  labels, subject and server profiles only. For a document that no such check has seen, a relabelled world takes the
  same path, sends the same prompt to the same server, and the server may not have the document. Concrete accepted
  pipelines show both ways in which this happens: hits found behind the check, and hits rendered and then replaced
  before it.
- **Ingestion** (`IngestionStore`, `Transactions`, `IngestionRepository`, `DualStore`, `IngestionService`). Each SQL
  transaction is a guarded step on the tables; the index changes call by call and may stop anywhere. Invariants hold
  over any interleaving of transactions; agreement of the two stores holds over any sequential history with failures.
- **Graph over ingested tables** (`IngestedGraph`). What each transaction changes of what a request can see: nothing
  before a pointer moves, then one source as a whole. After any history, expansion returns visible chunks of current
  versions, the same that the index holds; and what a finished ingestion relates, the next request follows.
- **Dataset import** (`DatasetImport`, `ImportResumption`, `ImportConvergence`, `CompletedImports`, `ImportDeletions`,
  `ImportLimits`, `ImportMarks`, `ImportService`). Resumption converges as long as no deletion has happened; after
  one, a retry completes if and only if every source with a relationship command, and every target, still has its
  pointer; and if one has not, no retry ever completes.
- **Windows** (`ConversationHistory`, `EvidenceContext`). What is put into a prompt, and the accounting of what is
  not.
- **Dataset generator and reader** (`Identifiers`, `Generator`, `DomainCycle`, `GeneratedEdges`, `EdgeCounts`,
  `GeneratedDataset`, `GeneratedOperations`, `DatasetReader`, `ReaderProperties`, `ReaderCommands`, `ReaderRecords`,
  `ReaderImport`, `ReaderLimits`, `GeneratedReading`, `GeneratedCommands`, `GeneratedImport`). Exactly which edges and
  operations are generated, which files the reader accepts and what its commands say of them, which of the accepted
  datasets can be imported, and which domains a generated dataset can be imported into.
- `Outcomes`, `Records`, `Ordering` and `Sequences` hold shared vocabulary.

Classes stand for the objects that the code updates in place; their methods are proved equal to functions on values
(`Expansion`, `Run`, `Stage`, `Process`, `Attempt`, `Prepared`), and the lemmas speak about those functions. Failures
of the outside world are a number of calls that succeed before one raises, with a flag for each failure handler whose
own call may raise too (`Fuel`), or answers of the world at each position (`World`); one quantifier covers them all.

## Findings

Where the code does something that its design does not promise, the exact condition is proved and a lemma gives a
concrete input.

- `pipeline.py:351-367`. A pipeline whose step declares only routes while its action chooses none is accepted, and every
  run through it raises (`PipelineRuns.MissingRouteExactly`, `PipelineLimits.AcceptedCanMissRoute`).
- `call_model.py:184-238`. A pipeline may retrieve again between the transmission check and the model call, or between
  rendering the evidence and the check; then a server receives documents, or their identifiers and scores, for which it
  was never checked and need not be cleared (`PipelineWorlds.CheckCoversHitsExactly`,
  `PipelineWorlds.CheckCoversEvidenceExactly`; `PipelineLimits`).
- `dataset_import.py:65-102`. Once an import has deleted a source that has a relationship command, with or without
  relationships in it, or that is the target of a published relationship, no retry of that import completes: its job
  is still indexed, so its pointer is not restored (`ImportDeletions`, `ImportLimits`).
- `weaviate.py:323-349`. A chunk with labels outside the universe passes the negated filter if the subject has its other
  labels; ingestion refuses such chunks today. `weaviate.py:328-330`. A domain called `__never__` is shown to subjects
  without clearance (`Security.VectorAgreesExactly`).
- `dataset_reader.py:297-341`. The reader accepts an edge whose start differs from its owner, and versions that join
  with their sources to one key; imports of such files never complete (`ReaderImport.ImportCompletesExactly`,
  `ReaderLimits`).
- `generation.py:618-626` with `ingestion.py:68-78`. A generated dataset cannot be imported into a domain that does not
  allow the labels drawn, or that demands clearances (`GeneratedImport.GeneratedImportsExactly`).
- `dataset_reader.py:287-296`. With complete relationship scope the reader refuses every generated domain that has a
  cross-domain edge (`GeneratedReading.ReaderAcceptsGenerated`, `ReaderLimits.CompleteScopeRefuses`).
- `dataset_reader.py:47-113`. A failed second preparation leaves the reader marked as prepared with empty tables
  (`ReaderLimits.PrepareTwice`).
- `_retrieval.py:46-67`. A budget that the first blocks use up exactly yields a citation without any text
  (`EvidenceContext.CitedWithoutText`).

## Model

| member | source | states |
|---|---|---|
| `Graph.WalkIsBounded` | sovereignflow/infrastructure/graph.py:66-121 | Optimal substructure of the search: every walk ends in a node that has been visited after its length, and if no shorter walk reached that node the layer's (seed score, labels) pair is at least as good as the walk's |
| `Graph.LayerIsDistance` | sovereignflow/infrastructure/graph.py:66-121 | A node is in layer k exactly when some visible walk of length k reaches it and none is shorter |
| `Graph.ExpansionIsOptimal` | sovereignflow/infrastructure/graph.py:66-121 | Every hit carries a real shortest walk whose (score, label sequence) no other shortest walk from any seed beats; its depth is that distance and its score the seed score divided on output only |
| `Graph.ExpansionIsExact` | sovereignflow/infrastructure/graph.py:49-126 | Without a node limit the hits are exactly the non-seed nodes that a visible walk of at most `max_depth` hops reaches |
| `Graph.ExpansionIsOrdered` | sovereignflow/infrastructure/graph.py:92-121 | Output ascends by depth, then descending score, then node, and no node occurs twice |
| `Graph.TruncationIsPrefix` | sovereignflow/infrastructure/graph.py:66-121 | Lowering either limit, depth or nodes, only cuts a tail off the answer |
| `Graph.EmptyLayerEndsSearch` | sovereignflow/infrastructure/graph.py:69-76 | Once a layer is empty nothing further is found, so the early exit loses nothing |
| `Graph.SeedStatesStartEmpty` | sovereignflow/infrastructure/graph.py:57-65 | Seeds enter with an empty path, one entry a node |
| `GraphAnswers.SeedKeepsLastScore` | sovereignflow/infrastructure/graph.py:49-56 | The score that a seed node starts with is that of the last entry that names it |
| `GraphAnswers.ExpansionAnswers` | sovereignflow/infrastructure/graph.py:49-126 | In terms of the tables and the request alone: each hit tells of a trail over current rows, in the direction asked for, from the last entry of a seed, scored with that entry's score over depth plus one, and no trail to its node is shorter or of the same length and better; hits ascend, at most `max_nodes`; a node within the depth limit is missing only from a full answer, behind all its hits |
| `Ordering.LexMeans` | sovereignflow/infrastructure/graph.py:78-88 | What sorting strings and label sequences means: at the first difference the smaller one, or nothing more, comes first |
| `Ordering.StringLessMeans` | sovereignflow/infrastructure/graph.py:78-88 | For strings, by code point |
| `GraphTraversal.Proposals.Select` | sovereignflow/infrastructure/graph.py:294-307 | The in-place dictionary update keeps the better of the old and new pair under (higher score, smaller path) and touches no other node |
| `GraphTraversal.QueryRelationships` | sovereignflow/infrastructure/graph.py:128-186 | Returned rows are exactly the active rows of the wanted kinds that touch the frontier in the allowed direction |
| `GraphTraversal.ProposalsFor` | sovereignflow/infrastructure/graph.py:128-207 | The loop over the returned rows yields for every unvisited neighbour the best offer over all rows, whatever their order |
| `GraphTraversal.LoadChunks` | sovereignflow/infrastructure/graph.py:210-265 | Exactly the proposed nodes that are current, in scope and pass the security clause are loaded; building the clause raises on unknown subject labels |
| `GraphTraversal.Traverse` | sovereignflow/infrastructure/graph.py:66-121 | The loops over `visited`, `frontier` and `expanded` return the expansion defined by shortest visible walks |
| `GraphTraversal.Expand` | sovereignflow/infrastructure/graph.py:49-126 | The answer told by seed entries, rows and chunks of the request, as above; an error exactly if the security clause cannot be built and a row leads from a seed to a node that is none |
| `GraphTraversal.ReturnedHitsAreSound` | sovereignflow/infrastructure/graph.py:49-126 | Every returned hit carries a best walk within the depth limit and is a visible chunk that passes the in-memory check made again after retrieval, whatever other tenants and domains the chunk table holds |
| `Security.RequirementSummarises` | sovereignflow/domain/models.py:394-429 | The fold raises exactly when some document cannot be read; otherwise it yields the clearance of a document that none exceeds, or the exact union of labels |
| `Security.ContextSecurityRequirement` | sovereignflow/domain/models.py:394-429 | The loop over `highest_label` and `required` computes that fold, errors included |
| `Security.FoldIsPointwise` | sovereignflow/domain/models.py:432-477 | One check of the folded requirement passes exactly when the server, read as a subject, may see every document |
| `Security.SatisfiesRaises` | sovereignflow/domain/models.py:432-477 | Exactly when that check raises instead of deciding |
| `Security.VerifyIngestionBoundary` | sovereignflow/application/ingestion.py:68-78 | The loop over chunks accepts a command exactly when scope, access labels and security metadata of every chunk fit the domain |
| `Security.VectorAgreesExactly` | sovereignflow/infrastructure/weaviate.py:271-349 | For every request and every chunk, ingested or not: the Weaviate filter answers like the PostgreSQL clause except in a domain called `__never__` asked without a clearance, and for a chunk whose labels inside the universe the subject has but that carries others outside; there it lets the chunk through |
| `Security.MemoryAgreesExactly` | sovereignflow/domain/models.py:196-250 | The in-memory check answers like the PostgreSQL clause except on metadata that only one of the two can compare, where one raises and the other refuses |
| `Security.EncodingsAgree` | sovereignflow/infrastructure/weaviate.py:271-349 | On chunks that ingestion accepts, all three give the same answer and raise alike, except the vector filter in a domain called `__never__` |
| `Security.UnknownLabelPassesNegativeForm` | sovereignflow/infrastructure/weaviate.py:323-349 | A concrete chunk outside the universe that only the negative form lets through |
| `Security.NeverDomainShowsEverything` | sovereignflow/infrastructure/weaviate.py:323-349 | A concrete ingested chunk of a domain called `__never__` that the vector filter shows to a subject without clearance |
| `Security.VerifyRetrievalBoundary` | sovereignflow/application/actions/_retrieval.py:15-33 | The loop over hits passes exactly when the in-memory check passes for every hit, and reports the first failure |
| `Security.DecisionMeansMayReceive` | sovereignflow/application/actions/enforce_model_transmission_policy.py:75-92 | A server is allowed exactly when its boundary is permitted and it may see every hit |
| `Security.TransmissionIsRouted` | sovereignflow/application/actions/enforce_model_transmission_policy.py:123-199 | The policy sends to the selected server if it may receive the hits, else to its one reroute target if that may, else to none; it raises for the requirement exactly when some hit cannot be read |
| `Security.TransmissionRaises` | sovereignflow/application/actions/enforce_model_transmission_policy.py:68-199 | Exactly when the policy raises instead of deciding: unreadable hit, unknown selected or reroute server, or a label that the model does not know |
| `Security.DenialSaysWhy` | sovereignflow/application/actions/enforce_model_transmission_policy.py:68-199 | A refusal carries the reason of the server looked at last: its boundary, its kind of profile, its clearance or its labels |
| `Pipelines.DefaultRegistryGuardsPolicy` | sovereignflow/application/pipeline.py:128-169 | In the default registry only the policy action provides what a model call requires |
| `Pipelines.StepMapSize` | sovereignflow/application/pipeline.py:182-186 | Comparing the size of the step dictionary with the number of steps detects repeated identifiers |
| `PipelineValidator.CleanIsAllPathsGood` | sovereignflow/application/pipeline.py:208-233 | The recursive walk raises nothing exactly when every path from the entry is repeat-free, within `max_steps` and supplies what its last step requires |
| `PipelineValidator.ReachIsAllStepsReached` | sovereignflow/application/pipeline.py:234-237 | The visited set is all steps exactly when every step ends some path |
| `PipelineValidator.ResultsIsAllEndsProduceResult` | sovereignflow/application/pipeline.py:238-241 | All recorded terminal results are true exactly when every path to a terminal step provides `result` |
| `PipelineValidator.Walker.Walk` | sovereignflow/application/pipeline.py:208-233 | The recursive method that extends `visited` and `terminal_results` in place computes these three answers, terminates, and explains any error by a concrete bad path |
| `PipelineValidator.CheckSteps` | sovereignflow/application/pipeline.py:178-207 | The step-by-step checks pass exactly when every step is registered in its version, configured and leads to known steps |
| `PipelineOrder.AcceptanceInKinds` | sovereignflow/application/pipeline.py:173-241 | Over the default actions acceptance speaks of kinds of steps only: every step is reached; on every path no step repeats, none exceeds `max_steps`, each retrieval is behind a normalization, each expansion and budget behind a retrieval, each check behind retrieval and budget, each model call behind normalization, budget and check, each finalization behind a call, each turn step behind a resolved conversation; and every end has been finalized |
| `PipelineValidator.Validate` | sovereignflow/application/pipeline.py:178-241 | Sound and complete: accepts exactly the pipelines whose paths are all good, whose steps are all reached and whose ends all provide a result; over the default actions exactly those whose paths are in that order; every rejection names a real defect |
| `PipelineRuns.ActCounts` | sovereignflow/application/actions/loop_guard.py:46-52 | Only a loop guard changes a counter, and a first visit takes `on_allow` |
| `PipelineRuns.ActKeepsPolicy` | sovereignflow/application/actions/enforce_model_transmission_policy.py:211-229 | The policy action returns only with an allowed decision and a server cleared for the hits of the moment; no other action touches decision, server or checked hits |
| `PipelineRuns.ActSends` | sovereignflow/application/actions/call_model.py:216-238 | Only a model step transmits, one prompt at a time and only with an allowed decision; also when the model raises, the prompt has been sent |
| `PipelineRuns.StepKeepsInvariant` | sovereignflow/application/pipeline.py:258-349 | One completed step keeps path, audit numbering, loop counters, transmissions and policy state, or ends the run safely, also where recording the step raises |
| `PipelineRuns.AcceptedRunsAreSafe` | sovereignflow/application/pipeline.py:258-367 | Every run of an accepted pipeline follows a repeat-free entry path of at most `max_steps` steps, writes linked audit rows from 1, takes `on_allow` at every loop guard, calls models only on servers cleared for the checked hits under the setting of the last policy step, ends in the missing-route error exactly if it passed a step that needs a route and never gets one, and never in the step-limit, unknown-route, terminal-route, guard or missing-result error |
| `PipelineDocuments.TransmittedDocumentsAreCleared` | sovereignflow/application/actions/call_model.py:184-238 | Every transmission of every run of an accepted pipeline: all documents behind it are the subject's to see; the server is cleared for the hits of the moment if the path changes none after its last check, and for evidence, identifiers and citations if budget step and check saw the same hits; the evidence is the rendering unless a variables step wrote it |
| `PipelineDocuments.MergeExactly` | sovereignflow/application/actions/expand_graph.py:101-106 | A graph expansion leaves one hit for each identifier found by search or expansion, and never an expanded hit in place of a searched one |
| `PipelineChecks.RunDecides` | sovereignflow/application/actions/enforce_model_transmission_policy.py:211-229 | Over every run: a transmission goes to the server that the last check before it chose, and every check before it allowed |
| `PipelineChecks.ChosenIsCleared` | sovereignflow/application/actions/enforce_model_transmission_policy.py:123-199 | A check that allows chose the selected server, or its reroute target exactly if the selected one is not cleared; the chosen one is cleared for all hits of that moment |
| `PipelineChecks.SeenOrFoundLater` | sovereignflow/application/actions/expand_graph.py:79-106 | Every hit of the moment was among the hits of the last check or in the reply of a search or expansion behind it |
| `PipelineRelabelling.StepsAlike` | sovereignflow/application/pipeline.py:258-349 | Worlds that give the same documents other labels, the subject other clearance and the servers other profiles: every action takes the same route and leaves the same texts, as long as the subject sees what is found and the check still allows |
| `PipelineRelabelling.FollowsToCall` | sovereignflow/application/pipeline.py:258-349 | So whole runs agree step by step up to a transmission: no route reads labels, subject or servers |
| `PipelineWorlds.TellingTakesPath` | sovereignflow/application/actions/call_model.py:184-238 | For every transmission, the relabelled world in which each document is closed to the servers it was never checked for takes the same path, chooses the same servers and sends the same prompt |
| `PipelineWorlds.CheckCoversHitsExactly` | sovereignflow/application/actions/enforce_model_transmission_policy.py:123-199 | For every transmission of every run: in each relabelled world that takes its path with the same servers chosen, the called server may have all hits of the moment, if and only if each of them was among the hits of a check that chose this server; if one was not, some relabelled world sends the server the same prompt although it may not have them |
| `PipelineWorlds.CheckCoversEvidenceExactly` | sovereignflow/application/actions/manage_context_budget.py:52-60 | The same if and only if for the documents behind evidence, identifiers and citations |
| `PipelineWorlds.StampsCover` | sovereignflow/application/actions/enforce_model_transmission_policy.py:123-199 | Readable off the path: hits that were last changed where those of the last check were are all covered by that check |
| `PipelineWorlds.UncoveredIsFoundLater` | sovereignflow/application/actions/expand_graph.py:79-106 | A hit of the moment that no check for the server has seen was found behind the last check |
| `PipelineRuns.MissingRouteExactly` | sovereignflow/application/pipeline.py:351-367 | A run of an accepted pipeline ends with the missing-route error exactly if it passed a step that declares only routes and never chooses one; without such a step in the pipeline no run does |
| `PipelineResults.AcceptedRunsAreInOrder` | sovereignflow/application/pipeline.py:258-349 | Every run of an accepted pipeline over the default actions: trace and failing step are in order, and a run that reaches its end has normalized, retrieved, rendered, checked, called and finalized |
| `PipelineResults.AuditNamesRegistered` | sovereignflow/application/pipeline.py:282-293 | Every audit row of an accepted run names a registered action in its registered version, and steps of the pipeline |
| `PipelineTexts.RunFollows` | sovereignflow/application/pipeline.py:258-349 | Over every run the context's texts, budget and conversation, and what each transmission shows, are those that the last setting steps on the path and the answers from outside tell |
| `PipelineResults.OutcomeOfRun` | sovereignflow/application/pipeline.py:288-348 | A run that reaches its end returns the answer last set, finalized as often as the path says, the citations of the hits rendered last and the trace; any other ends with the error of the failing audit, of the history that cannot close an open turn, or of the loop, in that order; and how the audit is marked |
| `PipelineResults.AnswerOfRun` | sovereignflow/application/actions/finalize.py:15-18 | The usual case: the reply of the last model step, or with a disclaimer the stripped reply, rule and disclaimer |
| `PipelineResults.PromptsFollow` | sovereignflow/application/actions/call_model.py:184-205 | Every prompt is its step's templates filled in order: with the normalized query, the history loaded last, evidence, identifiers and citations of the hits rendered last, and the summary of the hits of the moment |
| `PipelineRoutes.GuardAllowsFirstVisits` | sovereignflow/application/actions/loop_guard.py:46-52 | The first `max_loops` visits take the allowing route, every later one the denying route |
| `PipelineRoutes.PrefixRouterRoutes` | sovereignflow/application/actions/prefix_router.py:57-69 | The first prefix in order that the stripped text starts with decides and is stripped; without one the text goes the other way whole |
| `PipelineRoutes.DecisionRoutes` | sovereignflow/application/actions/json_decision_router.py:75-107 | A deciding payload takes its route, any other text the configured one, or the action raises; the response is rewritten exactly for an object |
| `PipelineRoutes.AskedOnce` | sovereignflow/application/actions/repeat_query_guard.py:50-84 | A query passes a guard exactly if it is not empty and was not asked before, and then counts as asked |
| `PipelineRoutes.AskedGrows` | sovereignflow/application/actions/retrieve.py:76-100 | No action forgets an asked query, and a search counts as asking even if its hits are refused |
| `PipelineRoutes.TurnsExactly` | sovereignflow/application/actions/_conversation.py:13-30 | When the actions on a conversation raise: it is not resolved, no turn is open, there is no answer to close it with, or the service fails |
| `PipelineRoutes.EvidenceIsRequired` | sovereignflow/application/actions/require_evidence.py:17-20 | Requiring evidence refuses exactly where no hits were rendered, as long as no variables step has written the evidence |
| `StraightPipelines.LineIsAccepted` | sovereignflow/application/pipeline.py:178-241 | A straight line of steps, each supplied by those before it, is accepted |
| `PipelineLimits.AcceptedCanMissRoute` | sovereignflow/application/pipeline.py:351-367 | A concrete accepted pipeline every run of which ends with the missing-route error |
| `PipelineLimits.AcceptedCanSendUncheckedHits` | sovereignflow/application/actions/call_model.py:184-238 | A concrete accepted pipeline, over any world whose templates fill their places: the prompt is the trace summary that names a document, found after the check, for which the server is not cleared |
| `PipelineLimits.AcceptedCanSendUncheckedEvidence` | sovereignflow/application/actions/call_model.py:184-238 | A concrete accepted pipeline, over any world whose templates fill their places: the prompt is evidence that holds the text of a document for which the server is not cleared, although nothing changed after the check |
| `PipelineEngine.Context.GuardLoop` | sovereignflow/application/actions/loop_guard.py:46-52 | The counter update in place and the chosen route are those of the run |
| `PipelineEngine.Context.RouteByPrefix` | sovereignflow/application/actions/prefix_router.py:57-69 | The first prefix that matches is taken and stripped; `last_route`, `last_prefix` and the last response are written as the run says |
| `PipelineEngine.FindPrefix` | sovereignflow/application/actions/prefix_router.py:60-65 | The loop over prefixes finds the first that the text starts with |
| `PipelineEngine.Context.RouteByDecision` | sovereignflow/application/actions/json_decision_router.py:75-107 | The decision read from the text chooses its route or the fallback, and the last response is rewritten exactly when the payload is an object, also if the action then raises |
| `PipelineEngine.Context.GuardRepeatedQuery` | sovereignflow/application/actions/repeat_query_guard.py:75-84 | The asked-query set grows by the normalised query and a repeat is routed away |
| `PipelineEngine.Context.EnforcePolicy` | sovereignflow/application/actions/enforce_model_transmission_policy.py:211-229 | Reason, selected and final server, reroute flag and checked hits are recorded as decided, also when the action then raises; the model changes only to an allowed server |
| `PipelineEngine.Context.CallTheModel` | sovereignflow/application/actions/call_model.py:216-238 | Refuses without an allowed decision, otherwise sends the prompt made of the configured parts and records it, also when the model raises |
| `PipelineEngine.RenderUserPrompt` | sovereignflow/application/actions/call_model.py:200-204 | The loop fills the parts in and joins them in order |
| `PipelineEngine.Context.Search` | sovereignflow/application/actions/retrieve.py:76-100 | The search result becomes the hits only after the boundary check; before it, seeds and asked query are already written |
| `PipelineEngine.Context.Expand` | sovereignflow/application/actions/expand_graph.py:79-106 | Nothing happens without hits or when switched off; otherwise the hits are the merged dictionary, after the boundary check |
| `PipelineEngine.MergeHits` | sovereignflow/application/actions/expand_graph.py:101-106 | The two dictionary loops compute the merged hits |
| `PipelineEngine.ReadGuardQuery` | sovereignflow/application/actions/repeat_query_guard.py:50-63 | The query is read from the decoded payload or the text, or there is none |
| `PipelineEngine.PerformRun` | sovereignflow/application/pipeline.py:258-349 | The while loop over a mutable context and audit log performs the specified run with its whole final context |
| `PipelineEngine.Execute` | sovereignflow/application/pipeline.py:258-349 | The run with its conclusion, failing audit, open conversation turn and failing history service included; from a fresh context, result, error and audit mark are those told by the path and the answers from outside |
| `IngestionStore.InterleavingKeeps` | sovereignflow/infrastructure/ingestion.py:44-403 | Over any interleaving of transactions, tables stay consistent (each job's hash is its stored version's, one key never names two payloads, every pointer names an indexed job of that source and version), an indexed job never changes, versions never change |
| `IngestionStore.AttemptsCountEntries` | sovereignflow/infrastructure/ingestion.py:225-238 | `attempts` counts exactly the successful entries into INDEXING, whoever made them |
| `IngestionStore.ApplyKeepsValid` | sovereignflow/infrastructure/ingestion.py:44-403 | Every single transaction keeps the consistency of the tables |
| `Transactions.StagingExactly` | sovereignflow/infrastructure/ingestion.py:44-201 | Staging conflicts exactly for a key used with another payload, a version stored with another payload, or a new version with a relationship to no current chunk; a new version is stored with its chunks in order and exactly one row for each relationship, under one new job |
| `Transactions.PublicationExactly` | sovereignflow/infrastructure/ingestion.py:297-366 | A publication replaces the rows of the current version by the command's, or raises for the first relationship that cannot be published: a conflict if its end is missing, a database error otherwise |
| `Transactions.DeletionExactly` | sovereignflow/infrastructure/ingestion.py:368-403 | Behind a deletion no row of the domain starts or ends in the source, and all else is as before |
| `Transactions.JobsMove` | sovereignflow/infrastructure/ingestion.py:225-295 | Which transaction takes a job from which status to which, whatever commits in between; indexing moves the pointer |
| `IngestionRepository.Repository.StageCommand` | sovereignflow/infrastructure/ingestion.py:44-201 | The chunk and relationship loops of one transaction store a new version with its rows as above, return the job of a repeated key, or raise a conflict and leave the tables as they were |
| `IngestionRepository.Repository.EnterIndexing` | sovereignflow/infrastructure/ingestion.py:225-238 | The guarded status update, attempts increased |
| `IngestionRepository.Repository.EnterIndexed` | sovereignflow/infrastructure/ingestion.py:240-279 | Status and source pointer change together, only from INDEXING |
| `IngestionRepository.Repository.EnterFailed` | sovereignflow/infrastructure/ingestion.py:281-295 | Only an INDEXING job can fail |
| `IngestionRepository.Repository.Publish` | sovereignflow/infrastructure/ingestion.py:297-366 | Relationships of a version are replaced as a whole, only for the current version and only with existing targets |
| `IngestionRepository.Repository.Remove` | sovereignflow/infrastructure/ingestion.py:368-403 | Pointer and every relationship that touches the source disappear together |
| `DualStore.InsertEffect` | sovereignflow/infrastructure/weaviate.py:124-155 | Wherever insertion stops, the index holds the chunks inserted so far and other sources are untouched |
| `DualStore.ReplaceEffect` | sovereignflow/infrastructure/weaviate.py:106-161 | A replacement leaves the old objects, or a first part of the new ones; on success exactly the new ones |
| `DualStore.ProcessEffect` | sovereignflow/application/ingestion.py:43-66 | Skipped exactly for an indexed job; on success both stores agree on the source; after any failure, wherever the worker and its own failure handler stop, the pointer is unchanged and the job is not indexed |
| `DualStore.BrokenJobIsFailed` | sovereignflow/application/ingestion.py:43-66 | Where the worker stops midway the job is marked failed, unless that call raises too; the attempt counts either way |
| `DualStore.RetryExactly` | sovereignflow/application/ingestion.py:38-41 | A retry refuses stored chunks that the domain does not take now and touches nothing; without failures it ends any other job that is not indexed |
| `DualStore.RemovalOrder` | sovereignflow/application/dataset_import.py:83-94 | Where a deletion stops midway the index holds nothing of the source and the tables all of it |
| `DualStore.PerformKeepsAgreement` | sovereignflow/application/ingestion.py:33-66 | Each ingestion, retry, publication or deletion keeps agreement on every source that it does not leave half changed |
| `DualStore.StoresAgree` | sovereignflow/infrastructure/ingestion.py:240-279 | After any sequence of operations with failures anywhere, each source whose last index-changing operation succeeded has in the index exactly the chunks of its current version, or none if deleted |
| `DualStore.AgreementMakesCountsEqual` | sovereignflow/infrastructure/ingestion.py:553-599 | Then the consistency report's `active_chunks` equals `indexed_chunks` |
| `IngestionService.VectorIndex.Replace` | sovereignflow/infrastructure/weaviate.py:106-161 | Embedding, deletion and the insert loop change the index step by step and stop where the specification says |
| `IngestionService.VectorIndex.Count` | sovereignflow/infrastructure/weaviate.py:187-206 | Counts exactly the objects of the tenant's domain |
| `IngestionService.DocumentIngestionService.ProcessJob` | sovereignflow/application/ingestion.py:43-66 | The branches of `_process`, failure handler included, perform the specified step on both stores |
| `IngestionService.DocumentIngestionService.VerifyBoundary` | sovereignflow/application/ingestion.py:68-78 | Accepts exactly the commands whose scope, access labels and security metadata fit the domain |
| `IngestionRepository.Repository.LoadChunks` | sovereignflow/infrastructure/ingestion.py:601-660 | The stored chunks of a job's version, in their stored order |
| `IngestionService.DocumentIngestionService.IngestCommand` | sovereignflow/application/ingestion.py:33-36 | Boundary check, staging and processing; a refused command changes nothing |
| `IngestionService.DocumentIngestionService.RetryJob` | sovereignflow/application/ingestion.py:38-41 | The stored command is loaded, passes the boundary check again, and is processed |
| `IngestionService.DocumentIngestionService.RemoveSource` | sovereignflow/application/dataset_import.py:83-94 | Index first, tables second, with a possible stop in between |
| `IngestedGraph.ViewOfTables` | sovereignflow/infrastructure/graph.py:128-265 | What a request sees, read off the ingestion tables: the rows of current versions, and the shown chunks of current versions |
| `IngestedGraph.UnfinishedIngestionIsInvisible` | sovereignflow/infrastructure/ingestion.py:44-295 | Any number of workers may stage, enter indexing and fail, their transactions interleaved in any order: every expansion returns what it returned before |
| `IngestedGraph.IndexingSwitchesOneSource` | sovereignflow/infrastructure/ingestion.py:240-279 | A pointer that moves swaps one source as a whole, rows and nodes, and changes nothing of another source |
| `IngestedGraph.DeletionDropsOneSource` | sovereignflow/infrastructure/ingestion.py:368-403 | A deletion hides exactly the nodes of the source and the rows that touch it |
| `IngestedGraph.PublicationReplacesRows` | sovereignflow/infrastructure/ingestion.py:297-366 | A publication replaces exactly the rows of the current version and shows no node |
| `IngestedGraph.HistoryKeepsFitting` | sovereignflow/application/ingestion.py:68-78 | After any history, every document stored for a domain can be read under the model that its ingestions were checked against |
| `IngestedGraph.IngestedHitsAreSound` | sovereignflow/infrastructure/graph.py:49-126 | After any history of ingestions, retries, publications and deletions with failures anywhere: every returned hit is a chunk of its source's current version on a best shortest walk, passes the in-memory check, and is in the vector index under the same version unless the last change of its index objects did not succeed |
| `IngestedGraph.IngestedVersionIsCurrent` | sovereignflow/application/ingestion.py:33-66 | A finished ingestion of a new version makes it the current one of its source, with the command's chunks and a row for each relationship |
| `IngestedGraph.IngestedRelationshipIsFollowed` | sovereignflow/infrastructure/graph.py:128-207 | End to end: behind a finished ingestion, a request with a seed at the start of one of its relationships finds the end if the subject may see it, and answers it unless the answer is full |
| `IngestedGraph.OwnChunkIsShown` | sovereignflow/infrastructure/graph.py:210-265 | Each chunk of the command is shown to every subject that the clause lets through |
| `DatasetImport.IngestMovesOneJob` | sovereignflow/application/ingestion.py:33-66 | Ingesting a command is refused exactly where the boundary check fails, skips an indexed job, and otherwise leaves its own job done, or open or absent after a failure, and stores no other version |
| `ImportResumption.StagingResumes` | sovereignflow/application/dataset_import.py:47-58 | The staging loop skips what is indexed, goes on from there, where it stops the indexed jobs are again a prefix, and without failures it ends exactly when the domain admits every remaining command |
| `ImportResumption.RelatingResumes` | sovereignflow/application/dataset_import.py:65-76 | Publishing from any point of a resumed loop: each owner has its old rows or its new ones, all new when the loop ends, and without failures it ends exactly when every remaining command can be published |
| `ImportConvergence.CleanAttempt` | sovereignflow/application/dataset_import.py:36-127 | An attempt without failures completes exactly when the domain admits every command and every relationship command can be made, belongs to the domain and is publishable on the staged stores, and ends as the published stores without the deleted sources |
| `ImportConvergence.ResumptionConverges` | sovereignflow/application/dataset_import.py:36-127 | Any number of attempts that fail in staging or relating, followed by one without failures, ends with the same pointers, versions, relationships and index content as one attempt without failures |
| `ImportConvergence.IndexedJobsArePrefix` | sovereignflow/application/dataset_import.py:47-58 | After such failures the indexed jobs are exactly a prefix of the command sequence |
| `ImportMarks.AttemptIsMarked` | sovereignflow/application/dataset_import.py:36-127 | The run's row is completed exactly if the attempt completes, failed if it does not and the handler's write succeeds, and keeps its request; a refused attempt changes nothing |
| `ImportMarks.RelatesExactly` | sovereignflow/application/dataset_import.py:65-76 | A relationship command passes its phase exactly if it can be made, belongs to the service's domain, is for the current version of its source, and each relationship can be published |
| `CompletedImports.CompletedIsClean` | sovereignflow/application/dataset_import.py:36-127 | An attempt that completes although calls may fail is, call for call, the attempt in which none may |
| `CompletedImports.CompletedCounters` | sovereignflow/application/dataset_import.py:47-110 | The running counters of a completed attempt are the number of commands, of published relationships and of deletions |
| `CompletedImports.NoDanglingRelationship` | sovereignflow/infrastructure/ingestion.py:297-403 | After any completed attempt both ends of every active relationship of an imported source exist, cycles and deletions included |
| `ImportDeletions.RetryAfterDeletions` | sovereignflow/application/dataset_import.py:83-110 | After a failure in the deleting phase and any number of failing retries, an attempt without failures completes if and only if what they left still has a pointer for every source that has a relationship command or is the target of one of its relationships, and then ends like an attempt that never failed |
| `ImportDeletions.NoRetryCompletes` | sovereignflow/application/dataset_import.py:36-127 | If one of these pointers is gone, no retry ever completes, however many are made and wherever they fail |
| `ImportLimits.NoRetryOfOneCompletes` | sovereignflow/application/dataset_import.py:83-102 | A concrete dataset without any relationship and a failure point after which no retry ever completes |
| `ImportService.DatasetImportService.StageSources` | sovereignflow/application/dataset_import.py:47-58 | The first loop of `execute` with its counter |
| `ImportService.DatasetImportService.PublishRelationships` | sovereignflow/application/dataset_import.py:65-76 | The second loop, whose running sum is the number of relationships published |
| `ImportService.DatasetImportService.DeleteSources` | sovereignflow/application/dataset_import.py:83-102 | The third loop over both stores |
| `ImportService.DatasetImportService.Execute` | sovereignflow/application/dataset_import.py:36-127 | The whole method, failure handler included, performs the specified attempt on both stores and on the import row with its totals and counters |
| `ConversationHistory.FormatConversationHistory` | sovereignflow/application/actions/_conversation.py:39-57 | The text is the stripped concatenation of the longest suffix of eligible turns that fits, in chronological order, and never longer than the limit; every turn from some place on that has an answer and fits alone stands in it with question and answer |
| `ConversationHistory.StripMeans` | sovereignflow/application/actions/_conversation.py:57-57 | Stripping takes white space from both ends, all of it and nothing else |
| `ConversationHistory.OldestQuestionSurvives` | sovereignflow/application/actions/_conversation.py:53-57 | Stripping takes nothing from the front of the oldest selected turn |
| `EvidenceContext.BuildContext` | sovereignflow/application/actions/_retrieval.py:36-69 | The loop cites a first part of the hits, field by field, omits exactly the rest in order, and joins the excerpts that the budget leaves; every cited hit but the last stands in the evidence with its whole text, and all do if the budget suffices |
| `EvidenceContext.HitIsTold` | sovereignflow/application/actions/_retrieval.py:46-68 | A hit that is not cut stands in the evidence: source, identifier, score and whole text |
| `EvidenceContext.CitationIsListed` | sovereignflow/application/actions/_retrieval.py:76-83 | Each citation has its numbered line, with all its fields |
| `EvidenceContext.HitIsListed` | sovereignflow/application/actions/_retrieval.py:86-93 | Each hit has its numbered line in the trace summary |
| `EvidenceContext.BudgetIsUsed` | sovereignflow/application/actions/_retrieval.py:46-54 | Block text totals exactly the smaller of the budget and all text |
| `EvidenceContext.OnlyLastIsCut` | sovereignflow/application/actions/_retrieval.py:51-67 | Every block but the last is whole, and if hits are omitted the last one is cut |
| `EvidenceContext.LargerBudgetExtends` | sovereignflow/application/actions/_retrieval.py:36-69 | A larger budget never drops a citation and only extends the evidence |
| `EvidenceContext.EvidenceIsPrefix` | sovereignflow/application/actions/_retrieval.py:36-69 | Evidence is a first part of the unlimited rendering, of exactly the budgeted length plus seven characters a separator |
| `EvidenceContext.FallbackExactly` | sovereignflow/application/actions/_retrieval.py:68-69 | The fallback text stands exactly for no hits or a zero budget |
| `EvidenceContext.CitedWithoutText` | sovereignflow/application/actions/_retrieval.py:46-67 | A hit is cited with no text at all exactly when some of the first hits, rendered whole, use up the budget |
| `EvidenceContext.SecondHitWithoutText` | sovereignflow/application/actions/_retrieval.py:46-67 | Two concrete hits of which the second is cited without text |
| `Identifiers.PaddedRoundTrip` | generator/src/dataset_generator/identifiers.py:28-51 | Zero padding at any width reads back as the number, also when the number is wider |
| `Identifiers.ChunkIdInjective` | generator/src/dataset_generator/identifiers.py:50-51 | A chunk identifier determines domain, type, instance and version |
| `Identifiers.SourceIdInjective` | generator/src/dataset_generator/identifiers.py:46-47 | A source identifier determines domain and type |
| `Identifiers.TenantIdExactly` | generator/src/dataset_generator/identifiers.py:38-39 | Two domains have the same tenant name exactly when their indices agree modulo the tenant count |
| `Identifiers.NamesReadBack` | generator/src/dataset_generator/identifiers.py:28-51 | The form of every name: which label, and which number padded to which width, stands where |
| `Generator.NodeAddresses` | generator/src/dataset_generator/generation.py:536-546 | The three nested loops enumerate the specified addresses |
| `Generator.SlotsSumToNodes` | generator/src/dataset_generator/generation.py:549-559 | Exactly as many addresses as configured nodes |
| `Generator.SlotsAreEven` | generator/src/dataset_generator/generation.py:549-553 | Slots differ by one node at most, and in an accepted configuration each holds every type |
| `Generator.AddressesDistinct` | generator/src/dataset_generator/generation.py:536-546 | No address is enumerated twice |
| `Generator.TypeCountsMatch` | generator/src/dataset_generator/generation.py:562-572 | The counts computed by division equal the per-type counts of the enumerated addresses |
| `DomainCycle.TargetStaysInTenant` | generator/src/dataset_generator/generation.py:663-673 | The cross-domain target is a domain of the same tenant |
| `DomainCycle.TargetsAreDistinct` | generator/src/dataset_generator/generation.py:663-673 | Different domains have different targets |
| `DomainCycle.EveryMemberIsReached` | generator/src/dataset_generator/generation.py:663-673 | Following targets from any domain reaches every domain of its tenant: one cycle, not several |
| `DomainCycle.CycleLength` | generator/src/dataset_generator/generation.py:663-673 | The walk is back at its start after as many steps as the tenant has domains and not before |
| `DomainCycle.SizeIsCardinality` | generator/src/dataset_generator/generation.py:663-673 | That number, computed by division, is the number of the tenant's domains |
| `DomainCycle.NoTargetMeansAlone` | generator/src/dataset_generator/generation.py:663-673 | There is no target exactly for a domain that is alone in its tenant |
| `EdgeCounts.EdgeAddresses` | generator/src/dataset_generator/generation.py:331-375 | The nested loops emit, once each, exactly the edges between two nodes of one domain, version and instance that a template joins, and the crossing ones |
| `EdgeCounts.EdgesExactly` | generator/src/dataset_generator/generation.py:331-375 | An edge is emitted exactly if a template joins its ends and both are nodes of the dataset, or it joins the first services of a domain and the next one of its tenant in one version |
| `EdgeCounts.OneEdgeLeaves` | generator/src/dataset_generator/generation.py:356-375 | From each version of a domain one edge leaves, if the degree limit is six or more and another domain shares the tenant; otherwise none |
| `EdgeCounts.EdgeCount` | generator/src/dataset_generator/generation.py:331-375 | The number of edges, by division |
| `EdgeCounts.TargetIsNext` | generator/src/dataset_generator/generation.py:663-673 | The target is the next higher domain of the tenant, or its lowest if there is none |
| `EdgeCounts.TemplatesByName` | generator/src/dataset_generator/generation.py:32-44 | The templates by the names of their types |
| `GeneratedEdges.EdgeEndsAreNodes` | generator/src/dataset_generator/generation.py:331-404 | Both ends of every emitted edge are enumerated nodes |
| `GeneratedEdges.EdgesDistinct` | generator/src/dataset_generator/generation.py:331-375 | No edge is emitted twice |
| `GeneratedEdges.DegreeIsBounded` | generator/src/dataset_generator/generation.py:356-375 | The outgoing degree of every node stays within `max_edges_per_node`, cross-domain edge included |
| `GeneratedDataset.OperationRecords` | generator/src/dataset_generator/generation.py:407-449 | The loops write the specified operations |
| `GeneratedOperations.LifeOfSource` | generator/src/dataset_generator/generation.py:407-449 | Every source is added in its first version and replaced by each later one in turn, the configuration is deleted at the end, and nothing else happens to it |
| `GeneratedOperations.OperationCount` | generator/src/dataset_generator/generation.py:407-449 | Ten operations for each version of a domain and one more |
| `DatasetReader.Workspace.ReadNodes` | sovereignflow/infrastructure/dataset_reader.py:168-235 | The loop fills the node and version tables record by record, or stops at a repeated chunk |
| `DatasetReader.Workspace.MakeCurrent` | sovereignflow/infrastructure/dataset_reader.py:471-495 | The upsert, refused for an unknown version |
| `DatasetReader.Workspace.ReadOperations` | sovereignflow/infrastructure/dataset_reader.py:237-264 | The loop over operations |
| `DatasetReader.Workspace.ReadEdges` | sovereignflow/infrastructure/dataset_reader.py:266-341 | The loop over edges with its skips and its four errors, in the order of the code |
| `DatasetReader.Workspace.Prepare` | sovereignflow/infrastructure/dataset_reader.py:47-113 | The tables hold the prepared dataset, or are empty after an error, which does not take back an earlier success |
| `ReaderProperties.NodesExactly` | sovereignflow/infrastructure/dataset_reader.py:168-235 | Loading nodes succeeds exactly when no chunk identifier repeats, and then holds exactly the selected rows in order |
| `ReaderProperties.NumbersFollowTheFile` | sovereignflow/infrastructure/dataset_reader.py:178-188 | Version numbers of a source run from zero without gaps in the order of first occurrence |
| `ReaderProperties.OperationsExactly` | sovereignflow/infrastructure/dataset_reader.py:237-264 | Loading operations succeeds exactly when each is known; the current version is the one set last and the deletions are those listed |
| `ReaderProperties.EdgesExactly` | sovereignflow/infrastructure/dataset_reader.py:266-341 | Loading edges succeeds exactly when every edge that starts inside matches its nodes, ends inside in complete scope, and none repeats; then exactly the inner edges are held |
| `ReaderCommands.PreparedIsSound` | sovereignflow/infrastructure/dataset_reader.py:47-113 | Whatever the files, accepted tables are consistent |
| `ReaderCommands.PreparedIsSettled` | sovereignflow/infrastructure/dataset_reader.py:47-113 | Whatever the files, in accepted tables every source has a current version, and the nodes have it |
| `ReaderCommands.CommandsAreWellFormed` | sovereignflow/infrastructure/dataset_reader.py:343-410 | A command can be made of a version exactly when each relationship it owns starts at the owner and, within one source, stays within the version |
| `ReaderCommands.SourceCommands` | sovereignflow/infrastructure/dataset_reader.py:115-134 | Commands by source, then version number, or an error before preparation |
| `ReaderCommands.RelationshipCommands` | sovereignflow/infrastructure/dataset_reader.py:136-159 | One command for each current version, with its relationships |
| `ReaderRecords.FilesBecomeCommands` | sovereignflow/infrastructure/dataset_reader.py:115-159 | Whatever files the reader accepts: each source command says exactly the records of one version, field by field in file order, and every selected record is said; each relationship command says exactly the edges between selected nodes that its version owns |
| `ReaderImport.DatasetIsWellFormed` | sovereignflow/infrastructure/dataset_reader.py:115-166 | With distinct keys, the reader's commands have distinct keys and versions, and relationships are published for versions that were staged with the same chunks |
| `ReaderImport.ImportCompletesExactly` | sovereignflow/application/dataset_import.py:36-127 | An import of what the reader accepted completes exactly when no two versions share an idempotency key, the domain takes every node's labels and metadata, a command can be made of every current version, every current version is its source's last one, and its relationships end at last versions |
| `ReaderImport.SharedKeyStops` | sovereignflow/infrastructure/ingestion.py:44-75 | Two versions under one key: no attempt completes, wherever it fails |
| `ReaderImport.PlainVersionsKeepKeysApart` | sovereignflow/infrastructure/dataset_reader.py:343-410 | Versions without a colon keep the keys apart |
| `ReaderImport.ImportedSources` | sovereignflow/application/dataset_import.py:36-127 | After any completed attempt every source not deleted points at its last version |
| `ReaderImport.ImportedCounters` | sovereignflow/infrastructure/dataset_reader.py:47-113 | A completed import counts as many sources and deletions as `prepare` reported, at most as many relationships, and exactly as many if and only if every owner is a current version |
| `ReaderImport.PreparedLeavesNoDangling` | sovereignflow/application/dataset_import.py:36-127 | After any completed import of what the reader prepared, both ends of every active relationship of its sources exist |
| `ReaderLimits.AcceptedFilesCanBeUnmakeable` | sovereignflow/infrastructure/dataset_reader.py:297-341 | Concrete files that the reader accepts in either scope, whose edge names another start than its owner, so that no import completes |
| `ReaderLimits.AcceptedFilesCanShareAKey` | sovereignflow/infrastructure/dataset_reader.py:343-410 | Concrete files that the reader accepts, two versions of which join to one key, so that no attempt completes |
| `ReaderLimits.CompleteScopeRefuses` | sovereignflow/infrastructure/dataset_reader.py:287-296 | The smallest generated dataset with an edge between domains: refused in complete scope, accepted in internal scope |
| `ReaderLimits.PrepareTwice` | sovereignflow/infrastructure/dataset_reader.py:47-113 | A second preparation that fails leaves the workspace prepared with empty tables, and it hands out an empty dataset |
| `GeneratedReading.ReaderAcceptsGenerated` | sovereignflow/infrastructure/dataset_reader.py:47-113 | For every accepted configuration and every domain, the reader accepts in internal scope, and in complete scope exactly the domains without an edge to another; version v has order v-1, the last version is current, the configuration source is deleted |
| `GeneratedCommands.EveryNodeIsStaged` | generator/src/dataset_generator/generation.py:575-615 | From the plan to the import: each node of the domain is a chunk of one command, under the names of its source, version and chunk, with the text and access label drawn for it |
| `GeneratedCommands.EveryEdgeIsPublished` | generator/src/dataset_generator/generation.py:377-404 | Each edge inside the domain that belongs to the last version is a relationship of the command of its start's source, from chunk to chunk and of the template's kind |
| `GeneratedImport.GeneratedImportsExactly` | sovereignflow/application/dataset_import.py:36-127 | From configuration to published sources: every such domain imports completely exactly if the domain takes the labels drawn for its nodes and demands no clearance; then every source but the deleted one points at its last version, and all relationships are published exactly if there is one version |
| `GeneratedImport.AllLabelsSuit` | generator/src/dataset_generator/generation.py:618-626 | A domain that allows the three labels of the generator suits unless it demands clearances; one that allows none never does |

## Left out

- PipelineRuns.AcceptedRunsAreSafe: a run may still end with the missing-route error; exactly when is part of the statement.
- PipelineDocuments.TransmittedDocumentsAreCleared: documents that reach a prompt by another way than hits, evidence, identifiers and citations are not traced: texts written by a variables step, earlier answers, and the conversation history.
- PipelineWorlds.CheckCoversHitsExactly: filling a template, decoding, stripping and normalising text, and the texts that a variables step writes, are arbitrary functions and answers, the same in every relabelled world; they cannot read labels, subject or servers.
- IngestedGraph.IngestedHitsAreSound: the security model of a domain does not change between its ingestions and the request.
- PipelineEngine.Execute: fields of the context that change together are grouped; run, request, session and turn identifiers, durations, token counts, diagnostics and an audit that raises before the run starts are not modelled.
- DualStore.StoresAgree: sequential runs only; the code does not order two workers on different versions of one source, so agreement cannot hold for those. A call to a store either raises without effect or takes effect.
- IngestionStore.InterleavingKeeps: payload hashes are the canonical payloads themselves (SHA-256 taken as injective), identifiers of jobs are fresh numbers, composite string keys are tuples.
- ImportService.DatasetImportService.Execute: concurrent imports of one identifier are not modelled.
- GraphTraversal.Expand: scores are exact reals, not floats; connection errors, graph metadata and the readiness check are not modelled.
- Security.EncodingsAgree: user-supplied metadata filters of a search, the embedding call and ranking are not part of the filters compared.
- Security.VerifyIngestionBoundary: normalisation of labels by the dataclass constructors is taken as done; label tuples are sets.
- PipelineValidator.Validate: parsing of step configuration from raw mappings is replaced by parsed configurations; the checks that decide routes, prompts and documents are modelled.
- ConversationHistory.FormatConversationHistory: whitespace is the fixed set of Unicode characters that Python strips.
- EvidenceContext.BuildContext: the rendered score is a given text, its six decimals are not computed; metadata of citations is not modelled.
- Generator.NodeAddresses: random text, ground truth, queries, manifest and the publication of directories are not modelled; a node's text and its one access label are arbitrary functions of its address.
- EdgeCounts.EdgeAddresses: edge weights are not modelled.
- DatasetReader.Workspace.Prepare: malformed JSON lines, empty or padded strings and the dataset digest are not modelled; records arrive parsed.
- ReaderCommands.RelationshipCommands: relationships of a command keep file order instead of key order; the canonical payload does not depend on it.
- Operating the service: HTTP API, web console, command line, OIDC, model and embedding gateways, prompt files, YAML loading, migrations and database drivers.
- Access-policy publication, operational metrics and evaluation reports, which would add set comprehensions and averages only.
