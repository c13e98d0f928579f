# Verification model of llm-agent-studio's backend

The studio backend runs multi-agent content production: a project is planned into
todos, workers generate versioned assets for them, people accept or reject, and
finished books are exported. This project models the parts of it that decide
something - a template language, a JSON extractor, the guarded writes on the
database tables, the export queue, the workflow planner, the configuration caches
of several replicas, the derived project state, storage routing, limiters, the
event stream and line breaking - and proves what they keep.

How it is modelled:

- A database table is a map from id to row. One guarded `UPDATE` or one transaction
  is one step. Each operation is a method of a class that holds the tables, proved
  equal to a function on the table; the same functions make up a state machine
  (`Step`, `Apply`, `Run`) whose runs are all interleavings of the callers.
- Loops over slices and cursors are methods with loops, proved equal to a
  specification function. The theorems relate those functions to an independent
  statement: a grammar, an order, a table, a bound over whole runs.
- Where the code does not keep a property its documentation promises, the model
  follows the code, a lemma names a concrete case, and another states exactly when
  the property holds.

Verify with `dafny verify dfyconfig.toml` (Dafny 4.11).

## The modules

| module | models |
|---|---|
| `Prelude`, `StableSort` | the few library functions the code calls |
| `ExprLexer`, `ExprParser`, `ExprGrammar`, `ExprPrinter` | lexer and parser of template expressions, their grammars, a printer |
| `ExprTemplate`, `ExprSemantics`, `ExprEval`, `ExprMeaning` | splitting a template, what it means, evaluating it, laws of evaluation |
| `JsonExtract`, `JsonText` | the extractor of a JSON object from model output; JSON text after RFC 8259 |
| `Assets`, `Lineage`, `VersionHistory`, `Review` | the asset table, its runs, version chains, human decisions |
| `Exports`, `ExportRuns` | the export queue and its runs |
| `WorkflowGraph`, `PlanCustom` | validation of a custom workflow, and its plan |
| `LocalCache`, `CacheHub`, `ModelPick` | one cached table, the coherence protocol, the cached lookups |
| `ProjectState`, `StateCompute`, `GraphProjection` | the two derivations of the project status, the graph view |
| `StorageConfig`, `StorageIdentity`, `StorageRouting` | storage configurations, their cache keys, routing of writes and reads |
| `RateLimits`, `EventStream`, `LineBreaking` | limiters, event log and stream, line breaking |

## Where the code differs from its stated intent

- An asset's status is meant only to climb, and a version to have one successor. The
  worker's retry (`internal/worker/worker.go:874-879`) drives a row back to
  `generating` from whatever status it read. `Lineage.StatusClimbs` says that this is
  the only step that lowers a status; `Lineage.ResetForksExactly` says that it can
  fork a lineage exactly when the row had already been regenerated;
  `Lineage.RetryForksLineage` is a run from the empty table that does.
- A storage configuration in use is meant not to be deletable. `StorageRouting.AstrayExactly`
  says exactly which step leads a stored object away from its store. Export jobs are not
  counted: `StorageRouting.ExportArtifactOrphaned` is a run. An asset can be written
  between the count and the DELETE, which the comment on `Delete` rules out but its
  transaction does not: `StorageRouting.SecureExactly` and
  `StorageRouting.RaceLosesExactly` give the exact condition,
  `StorageRouting.LateDeleteLosesAsset` is a run.
- The store cache is meant to be keyed by the configuration's identity.
  `StorageIdentity.IdentityExact` says exactly which configurations share a key with
  another, `StorageRouting.CacheInvisibleExactly` that the cache is invisible exactly
  for the others; `StorageIdentity.IdentityCollides` and
  `StorageRouting.CollisionServed` give two accepted inputs, which differ in region and
  bucket, of which one is served from the other's store.
- The default of an organisation is meant to be enabled. `SetDefault` checks that
  before it writes, without a lock; `StorageRouting.DefaultsSoundExactly` says exactly
  which step leaves a disabled default. `StorageConfig.LateDefaultBlocksOrg` is a
  concrete case: the org then has no default to write to, and every enabled `Create` is
  refused by the unique index.
- The two status derivations are meant to be the same function of the same data.
  `StateCompute.StatusesAgreeExactly` gives the exact condition,
  `StateCompute.StatusesAgree` shows that runs of the asset table meet it, and
  `StateCompute.TodoOnDescendantSplitsStatus` shows that the condition is needed.

## Model

| member | source | states |
|---|---|---|
| `ExprLexer.ScanToken` | internal/expr/token.go:103-157 | one round of the lexer returns the token and end offset that the scanning specification gives, or its error with the offset of the token |
| `ExprLexer.Tokenize` | internal/expr/token.go:95-161 | the loop over the index returns the specified token list or the first error |
| `ExprLexer.LexDecides` | internal/expr/token.go:95-161 | the lexer returns a token list exactly when the text spells it in a declarative lexical grammar, and fails exactly when it spells none |
| `ExprLexer.ErrorOffsetIsFirst` | internal/expr/token.go:118-156 | the reported offset is in the text, holds no space, and no lexeme of any kind starts there |
| `ExprParser.Cursor.Next` | internal/expr/parser.go:84-90 | returns the current token and moves on, but never past the closing EOF |
| `ExprParser.Cursor.ParseConcat` | internal/expr/parser.go:124-142 | result and cursor are those of the specification; remaining tokens shrink |
| `ExprParser.Cursor.ParsePostfix` | internal/expr/parser.go:155-200 | the loop that rebinds the receiver follows the specified chain of members, indexes and `toLowerCase` |
| `ExprParser.Cursor.ParsePrimary` | internal/expr/parser.go:203-231 | literals, heads and parentheses with every error case |
| `ExprParser.Cursor.ParseHead` | internal/expr/parser.go:237-281 | `$node[...]`, `JSON.stringify(...)` and the root names, with every error case |
| `ExprParser.Parse` | internal/expr/parser.go:104-121 | a span parses to what lexing and parsing its tokens give, and trailing tokens are an error |
| `ExprGrammar.ParserDecides` | internal/expr/parser.go:77-281 | the parser returns a node exactly when an inductive grammar derives it from all tokens, fails exactly when nothing is derivable, and the grammar is unambiguous |
| `ExprGrammar.SpanDecides` | internal/expr/parser.go:104-121 | lexer and parser together accept exactly the texts that spell tokens deriving the node |
| `ExprPrinter.RoundTrip` | internal/expr/parser.go:104-281 | printing then parsing is the identity for every node whose strings miss one quote kind and whose names are identifiers |
| `ExprPrinter.SpellingParses` | internal/expr/token.go:95-161 | any spelling of a node's tokens, whatever white space and quote kind, parses to the node |
| `ExprPrinter.ParseImage` | internal/expr/parser.go:104-281 | the printable nodes are exactly those that some text parses to |
| `ExprPrinter.ReprintStable` | internal/expr/parser.go:104-281 | the canonical text of a parsed span parses to the same node |
| `ExprTemplate.SplitTemplate` | internal/expr/token.go:33-66 | the loop over the shrinking template returns the specified segments |
| `ExprTemplate.SplitLossless` | internal/expr/token.go:33-66 | the pieces behind the segments concatenate to the template |
| `ExprTemplate.OnlyFinalLiteralOpens` | internal/expr/token.go:33-66 | only a final literal holds `{{`, and two literals are never adjacent |
| `ExprTemplate.SplitCanonical` | internal/expr/token.go:33-66 | rendering the segments and splitting again gives the same segments |
| `ExprEval.Resolve` | internal/expr/expr.go:44-71 | the result is a text exactly when the template renders as that text in the relational meaning of its segments; result and resolver calls are those of the segments in order up to the first error |
| `ExprEval.EvalMeans` | internal/expr/eval.go:34-254 | an expression evaluates to a value exactly when it means that value in a relation that names fields, keys, positions and texts only |
| `ExprSemantics.FollowMeans` | internal/expr/eval.go:94-161 | a path of members and indexes means what it leads to, hop by hop, from the value of its head |
| `ExprEval.PathEvaluates` | internal/expr/eval.go:94-161 | so a root or node reference followed by a path evaluates to exactly the value the path reaches |
| `ExprEval.ElementEvaluates` | internal/expr/eval.go:123-143 | a decimal number in brackets is the element with that many before it, or out of range |
| `ExprEval.SegmentsRender` | internal/expr/expr.go:44-71 | a segment list resolves to a text exactly when it renders as it: null as nothing, a binary reference as its asset id, composed values as JSON |
| `ExprEval.PathFails` | internal/expr/eval.go:94-161 | a path that leads nowhere is an error, the one of the first hop without a target, and which error each kind of value gives |
| `ExprEval.HeadFails` | internal/expr/eval.go:59-92 | which error a root and a node reference report, the resolver's own included |
| `ExprMeaning.ResolveFollows` | internal/expr/eval.go:78-92 | the node lookups made are the ids written in the template, in order; on an error an initial part of them |
| `ExprMeaning.ResolveLocal` | internal/expr/eval.go:34-92 | resolvers that agree on the calls of one run give the same run |
| `ExprMeaning.ResolveIsConcatenation` | internal/expr/expr.go:44-71 | a template resolves exactly when every segment does, to the concatenation of their texts |
| `ExprMeaning.FirstErrorWins` | internal/expr/expr.go:44-71 | the error is that of the first failing segment |
| `ExprMeaning.ResolveIdentity` | internal/expr/expr.go:44-71 | a template without expression segments is its own result and looks nothing up |
| `ExprMeaning.SecretsVerbatim` | internal/expr/expr.go:54-56 | a secret span reaches the result verbatim, at its place |
| `ExprMeaning.NestedConcatFlattens` | internal/expr/eval.go:163-179 | parentheses inside a concatenation change neither result, error nor lookups |
| `ExprMeaning.AdjacentSpansConcat` | internal/expr/eval.go:163-179 | two adjacent spans resolve like the one span that prints the sum of their nodes, in any template |
| `JsonExtract.IsWord` | internal/agents/jsonparse.go:67-77 | true exactly for non-empty ASCII letters and digits |
| `JsonExtract.StripFences` | internal/agents/jsonparse.go:16-34 | the successive reslicing gives the part of the reply that counts |
| `JsonExtract.StripDecides` | internal/agents/jsonparse.go:17-34 | the part cut out is the only one that counts: the whole reply without a fence, else what stands between the first fence, without its tag line, and the next one |
| `JsonExtract.ScanObject` | internal/agents/jsonparse.go:39-63 | the loop over depth, string and escape flags returns the specified prefix or error |
| `JsonExtract.ExtractJsonObject` | internal/agents/jsonparse.go:15-64 | the whole extraction meets the specification |
| `JsonExtract.ScanFindsBlock` | internal/agents/jsonparse.go:39-63 | a string-aware balanced block is found exactly, whatever follows it |
| `JsonExtract.ScanYieldsBlock` | internal/agents/jsonparse.go:39-63 | whatever the scan returns is such a block |
| `JsonExtract.ExtractDecides` | internal/agents/jsonparse.go:15-64 | on the part that counts: returns the balanced block at the first brace, errs exactly when there is no brace or no balanced prefix |
| `JsonExtract.AfterFenceIgnored` | internal/agents/jsonparse.go:27-29 | what follows the closing fence never counts, also when the block holds no object |
| `JsonExtract.BlocksPrefixFree` | internal/agents/jsonparse.go:39-63 | no block is a proper prefix of another, so the one returned is the shortest |
| `JsonText.ObjectBlock` | internal/agents/jsonparse.go:39-63 | every object printed after sections 4 and 7 of RFC 8259 is a block |
| `JsonText.ExtractsFromProse` | internal/agents/jsonparse.go:15-64 | the printed object comes back exactly from prose without an earlier brace or a fence |
| `JsonText.ExtractsFromFence` | internal/agents/jsonparse.go:16-34 | it comes back exactly from a fenced block with any tag line and any tail |
| `Assets.AssetStore.Insert` | internal/assets/store.go:113-140 | one new row with the caller's columns and nothing generated, refused when its todo already has one |
| `Assets.AssetStore.CreateVersion` | internal/assets/store.go:105-111 | the next version under its parent, or NotFound and no change |
| `Assets.AssetStore.SetBlob` | internal/assets/store.go:165-174 | writes the five output columns and the status, and reports won, exactly when the row is generating or submitted |
| `Assets.AssetStore.TransitionStatus` | internal/assets/store.go:191-197 | compare-and-set of the status |
| `Assets.AssetStore.SetSubmitted` | internal/assets/store.go:372-380 | only from generating |
| `Assets.AssetStore.SetAsyncFailed` | internal/assets/store.go:386-393 | only from generating or submitted |
| `Assets.AssetStore.ReapStaleSubmitted` | internal/assets/store.go:424-432 | fails exactly the stale submitted rows and counts them |
| `Assets.AssetStore.GetOrCreateForTodo` | internal/assets/store.go:344-366 | the todo's row, created exactly when there is none |
| `Assets.AssetStore.CreateForDispatch` | internal/worker/worker.go:858-881 | the todo's row, driven back to generating |
| `Lineage.StatusClimbs` | internal/assets/store.go:165-197 | every step strictly raises the rank of a status it changes, except a retry reset, which always lowers it |
| `Lineage.StatusMoves` | internal/assets/store.go:165-197 | which rows each step moves and to which status, and that it moves no other |
| `Lineage.NextVersionIs` | internal/review/review.go:78-89 | the version that is inserted has the edited prompt, or the parent's when that is empty, the parent's project, shot, type and style, and nothing generated |
| `Lineage.ChangesAndWinsBounded` | internal/assets/store.go:165-197 | over every run an asset changes status at most three times plus four per reset, and at most one SetBlob plus one per reset wins |
| `Lineage.TerminalIsFinal` | internal/project/store.go:483-486 | accepted, rejected, failed and canceled are absorbing in every run without a reset of the row |
| `Lineage.SoundRun` | internal/assets/store.go:99-140 | over every run each row is a first version or the next version of an existing row, and only first versions have a todo |
| `Lineage.ChainedRun` | internal/review/review.go:56-113 | over every run without a reset of a regenerated row: one successor each, regenerated rows rejected |
| `Lineage.ResetForksExactly` | internal/worker/worker.go:874-879 | a reset lets some later run fork the lineage exactly when the row had been regenerated |
| `Lineage.RetryForksLineage` | internal/worker/worker.go:858-881 | a run from the empty table in which it does |
| `Review.ReviewService.Decide` | internal/review/review.go:47-65 | Accept and Reject move the table as the step of a run, or report a conflict |
| `Review.ReviewService.Regenerate` | internal/review/review.go:69-113 | rejects the pending version, inserts the next one with the edited or the parent's prompt, spawns its todo; missing and non-pending cases change nothing |
| `VersionHistory.SelectUp` | internal/assets/store.go:204-210 | the upward query finds exactly the ancestors |
| `VersionHistory.SelectDown` | internal/assets/store.go:211-218 | the downward query finds exactly the descendants |
| `VersionHistory.List` | internal/assets/store.go:201-235 | all related versions, each once, ordered by version |
| `VersionHistory.HistoryIsWholeChain` | internal/assets/store.go:201-235 | in a chained table the history is the whole lineage: versions 1, 2, 3, ..., each the parent of the next, all but the last rejected |
| `VersionHistory.HistoryFromAnyMember` | internal/assets/store.go:201-235 | every member lists the same history |
| `Exports.ExportStore.Claim` | internal/exports/store.go:108-133 | leases an unlocked due job with the earliest run time until the lease ends, or nothing exactly when there is none |
| `Exports.ExportStore.MarkDone` | internal/exports/store.go:138-152 | takes effect only on a running job |
| `Exports.ExportStore.MarkFailed` | internal/exports/store.go:158-180 | counts the attempt of a running job; failed for good at the limit, else due again after the delay |
| `Exports.ExportStore.Reap` | internal/exports/store.go:219-235 | ends exactly the jobs whose lease expired longer ago than the limit |
| `Exports.DeleteEnds` | internal/project/store.go:534-538 | deleting a project ends exactly its waiting and running jobs |
| `Exports.Runner.Process` | internal/exports/runner.go:187-295 | a job still running ends done exactly when every stage works, with key, target and size of its artifact, else with the first cause recorded; a job that is not running is left alone |
| `Exports.JudgeDecides` | internal/exports/runner.go:187-281 | an export exactly when all eight stages work; otherwise the cause is that of the first stage that fails |
| `Exports.Runner.RunOnce` | internal/exports/runner.go:165-184 | runs exactly when a job is due; leaves that job not running, done exactly when it can be exported, and all others unchanged |
| `ExportRuns.InvRun` | internal/exports/store.go:108-235 | the queue's invariant holds over every run of creators, runners, reaper and project deletion |
| `ExportRuns.WritesAreFenced` | internal/exports/store.go:138-180 | a terminal write takes effect exactly when nobody ended the job before, and then its claim is the latest; otherwise the table stays |
| `ExportRuns.QueueSound` | internal/exports/store.go:108-180 | claims never exceed the attempt limit, a lease is set exactly while running, a done job holds its latest claim's result |
| `ExportRuns.FinalIsAbsorbing` | internal/exports/store.go:138-235 | a finished job's row never changes again |
| `ExportRuns.OneLiveClaim` | internal/exports/store.go:108-133 | at most one open claim while a job runs |
| `WorkflowGraph.Search.Visit` | internal/planner/planner.go:165-189 | the colouring search blackens the node and all it depends on, or names an edge on a cycle; it terminates |
| `WorkflowGraph.ValidateCustomGraph` | internal/planner/planner.go:140-199 | accepts exactly the good graphs, with a topological order; an error names a fault that is there |
| `WorkflowGraph.SomeNodeIsReady` | internal/planner/planner.go:404-409 | an accepted graph has a node without dependencies |
| `WorkflowGraph.NoSelfDependency` | internal/planner/planner.go:165-189 | no node of an accepted graph depends on itself |
| `PlanCustom.Planner.CheckBindings` | internal/planner/planner.go:231-258 | accepts exactly the bindings with field names and sources among the dependencies; an error names a binding that is wrong |
| `PlanCustom.FieldNameIs` | internal/planner/planner.go:120-125 | field names are words of letters, digits and underscores that begin with no digit |
| `PlanCustom.LocalVarsKeep` | internal/planner/planner.go:276-298 | pass 1 keeps name and field as written |
| `PlanCustom.Planner.Rewrite` | internal/planner/planner.go:366-402 | fails exactly on an unmapped source; otherwise every variable is rewritten |
| `PlanCustom.Planner.PlanCustom` | internal/planner/planner.go:222-412 | succeeds exactly when the graph is good, the bindings are, and every node has its input: parameters that parse for a typed node, else an inline prompt, no prompt or a known one; an error leaves the table alone and is never the unknown-local-node error; success stores every final row, leaves all other rows alone and returns the nodes without dependencies, at least one |
| `PlanCustom.DependenciesKept` | internal/todos/store.go:46-66 | a stored todo waits for the todos of its node's dependencies, in their order |
| `PlanCustom.BindingsKeepMeaning` | internal/planner/planner.go:366-402 | every stored variable reads the todo of the node its author bound it to, which the reader waits for and is not the reader; name and field are unchanged |
| `LocalCache.Cache.ReloadAll` | internal/localcache/localcache.go:100-123 | list and map come from the same load; a failed load changes nothing |
| `LocalCache.Cache.Get` | internal/localcache/localcache.go:157-166 | a miss exactly when no loaded row has the id, else the last such row |
| `LocalCache.Cache.GetMap` | internal/localcache/localcache.go:180-190 | the kept rows by id; with distinct ids the same rows as GetAll |
| `LocalCache.MapFollowsList` | internal/localcache/localcache.go:168-190 | filtering map and list agree when ids are distinct |
| `LocalCache.GormLoad` | internal/localcache/localcache.go:125-155 | paging returns the whole table |
| `CacheHub.Hub.Invalidate` | internal/localcache/invalidate.go:109-122 | reloads the table locally, then sends its name with the own origin; errs for an unknown table or a failed reload; a failed send is no error |
| `CacheHub.Hub.Handle` | internal/localcache/invalidate.go:170-187 | reloads exactly on a well-formed foreign message for a known table that can be loaded |
| `CacheHub.Hub.PreloadAll` | internal/localcache/invalidate.go:79-96 | every registered cache equals its table, or the error names a table that cannot be loaded |
| `CacheHub.Hub.ReloadEverything` | internal/localcache/invalidate.go:189-203 | every registered cache equals its table, except those that cannot be loaded, which keep their rows |
| `CacheHub.ReachableCoherent` | internal/localcache/invalidate.go:109-203 | in every run a caught-up cache equals its table, or a foreign notification waits, or a writer has not finished |
| `CacheHub.QuietReplicasAgree` | internal/localcache/invalidate.go:109-203 | with no write half done, caught-up replicas with empty inboxes agree and hold the table |
| `CacheHub.InboxHeals` | internal/localcache/invalidate.go:161-187 | working off the inbox makes a connected replica fresh and changes no table |
| `CacheHub.ReadYourWrite` | internal/localcache/invalidate.go:105-116 | between its local reload and the next write of the table, the writing replica serves the write in every interleaving |
| `CacheHub.ReloadBeforeListenMisses` | internal/localcache/invalidate.go:147-160 | with the opposite order of LISTEN and catch-up a replica ends caught up, with nothing on its way, and stale |
| `CacheHub.LateListenerStaysStale` | internal/localcache/invalidate.go:147-160 | and it stays stale in every later run without a write, a refresh of it or a reconnect |
| `ModelPick.PickCachedDefault` | internal/models/cache.go:94-105 | nothing exactly when no row matches, else the first newest match |
| `ModelPick.PickCachedNamed` | internal/models/cache.go:109-127 | the same under is_default, then created_at, descending |
| `ModelPick.SortByCreatedDesc` | internal/models/cache.go:190-196 | the in-place swaps compute the stable sort |
| `ModelPick.SortedIsOrderBy` | internal/models/cache.go:169-196 | newest first, and the rows of each time are all there in their old order |
| `ProjectState.RegenOf` | internal/project/store.go:407-417 | the recursive query finds exactly the descendants of the plan's assets |
| `ProjectState.ProjectStore.RefreshStatus` | internal/project/store.go:369-439 | stores the status derived from a newest plan; canceled stays canceled, a project without a plan keeps its status |
| `ProjectState.DerivedStatusIs` | internal/project/store.go:383-439 | the status read off the rows: active before failed before canceled before open assets before completed |
| `ProjectState.ProjectStore.Cancel` | internal/project/store.go:462-488 | only from planning or running; cancels exactly the open todos and in-flight assets of the project, keeps pending ones |
| `ProjectState.ProjectStore.SoftDelete` | internal/project/store.go:514-545 | once; exactly the same sweeps, and the project is canceled |
| `ProjectState.CancelSettles` | internal/project/store.go:476-486 | after the sweep no plan of the project derives running |
| `StateCompute.TallyAssets` | internal/projectstate/state.go:223-256 | the counters equal the counts over the lists |
| `StateCompute.AssetStageStatus` | internal/projectstate/state.go:375-403 | which mix of pips gives which stage, all five cases |
| `StateCompute.StagesOf` | internal/projectstate/state.go:263-273 | script and storyboard stages show the last todo of their type, or blocked |
| `StateCompute.LastFailed` | internal/projectstate/state.go:308-314 | the failure shown is the last failed todo |
| `StateCompute.BuildPips` | internal/projectstate/state.go:268-299 | one pip per asset todo in order, with its status and asset; done is the number of those that are not lost and have an asset, failed that of the lost ones |
| `StateCompute.Compute` | internal/projectstate/state.go:205-316 | status from the counts, pips, all three tallies exactly, all five stages and the last failure; a run whose asset todos all failed shows none done; without a plan the stored status passes through |
| `StateCompute.CountMatches` | internal/project/store.go:384-396 | counting the loaded list is counting the table, for any order of the list |
| `StateCompute.StatusesAgreeExactly` | internal/project/store.go:383-439 | Compute and RefreshStatus derive the same status exactly unless the only unfinished descendants carry a todo id and nothing else is open |
| `StateCompute.StatusesAgree` | internal/project/store.go:705-734 | they agree over every run of the asset table |
| `StateCompute.TodoOnDescendantSplitsStatus` | internal/projectstate/state.go:246-254 | without that invariant one state is completed to one and review to the other |
| `GraphProjection.BuildGraph` | internal/projectstate/state.go:478-524 | nodes and edges are those of the ordered todos; each node shows id, type, status, numbered label, asset and output of its todo |
| `GraphProjection.OrderIrrelevant` | internal/projectstate/state.go:482-489 | every order of the same todos gives the same nodes, labels and edges |
| `GraphProjection.EdgesAreDependencies` | internal/projectstate/state.go:491-494 | the edges are exactly the dependencies between listed todos |
| `GraphProjection.NumbersHaveNoHoles` | internal/projectstate/state.go:496-503 | every number from 1 to the count of a type occurs |
| `GraphProjection.NumbersIncrease` | internal/projectstate/state.go:496-503 | within a type the numbers increase, so none repeats |
| `GraphProjection.LabelsDiffer` | internal/projectstate/state.go:458-472 | two nodes of a type never carry the same label |
| `GraphProjection.SortedShapes` | internal/projectstate/state.go:474-489 | the order depends on id and creation time only |
| `GraphProjection.EarlierNodesStay` | internal/projectstate/state.go:474-524 | between two readings, whatever workers change and whatever todos are created later, every earlier node keeps its place, id, type and label |
| `StorageConfig.ConfigStore.Create` | internal/storageconfig/store.go:224-252 | which error wins, and the row inserted, default only when enabled, none was seen and the index allows it |
| `StorageConfig.ValidExactly` | internal/storageconfig/store.go:92-127 | which inputs are accepted |
| `StorageConfig.ResolveFinds` | internal/storageconfig/store.go:411-434 | a write finds a row exactly when it is enabled, the org's own or global, and can be decrypted; a read looks at disabled ones too |
| `StorageConfig.UpsertGlobalIs` | internal/storageconfig/store.go:150-176 | there is one global row, which a second upsert updates, keeping an unstated secret |
| `StorageConfig.ConfigStore.Update` | internal/storageconfig/store.go:255-284 | only the org's own row; disabling clears the default |
| `StorageConfig.ConfigStore.SetDefault` | internal/storageconfig/store.go:288-315 | succeeds exactly when its SELECT saw an enabled row of the org; the updates act on whatever the table is by then, and make the row, if it is still there, the only default |
| `StorageConfig.LateDefaultSoundExactly` | internal/storageconfig/store.go:292-314 | after anything committed between its check and its updates, the defaults are sound exactly when the row is still enabled or gone |
| `StorageConfig.LateDefaultBlocksOrg` | internal/storageconfig/store.go:224-315 | a run of the table with such a late write: the org has no effective default, and every enabled Create is refused |
| `StorageConfig.ConfigStore.Delete` | internal/storageconfig/store.go:334-361 | refused exactly when its count saw an asset with the id, not found exactly when the row is no longer there; clears the project overrides |
| `StorageConfig.ConfigStore.PickForMode` | internal/storageconfig/store.go:366-461 | the org's newest candidate, else the newest global one, ties by id |
| `StorageConfig.PickIsUnique` | internal/storageconfig/store.go:448-470 | so both by-mode queries choose the same row |
| `StorageIdentity.IdentityExact` | internal/storagerouter/router.go:221-227 | for any hexadecimal digest, another backend or digest shares a configuration's key exactly when one of its first five fields holds a bar or its prefix holds a digest and a flag between bars |
| `StorageIdentity.IdentityShared` | internal/storagerouter/router.go:219-227 | with a collision-free digest, another configuration shares the key exactly then |
| `StorageIdentity.IdentityCollides` | internal/storagerouter/router.go:221-227 | two inputs that the store accepts share a key |
| `StorageRouting.CacheInvisibleExactly` | internal/storagerouter/router.go:190-217 | the cache answers like Build, for every way of building and every history of calls, exactly for the unambiguous configurations |
| `StorageRouting.CollisionServed` | internal/storagerouter/router.go:192-217 | the second of those inputs is served from the first one's store |
| `StorageRouting.AnswerSticks` | internal/storagerouter/router.go:192-217 | a configuration keeps its store in one process whatever else is asked for, ambiguous or not |
| `StorageRouting.Router.BuildCached` | internal/storagerouter/router.go:192-217 | a cached store answers for every configuration with its key, else Build's result is cached; equals Build for every unambiguous configuration |
| `StorageRouting.Router.ResolveWriteTarget` | internal/storagerouter/router.go:161-188 | override, then default, then built-in: the token, and the store its configuration gets through the cache, which is Build's when unambiguous |
| `StorageRouting.TargetIs` | internal/storagerouter/router.go:161-188 | the project's own choice if it is usable, else a usable default of the org, else the built-in store |
| `StorageRouting.ServesFrom` | internal/storagerouter/router.go:137-153 | a read goes to the store of the token's row when the org may read it, enabled or not, else to the built-in one |
| `StorageRouting.Router.BlobStoreForConfigId` | internal/storagerouter/router.go:137-153 | the store of the token's configuration through the cache, enabled or not, else the built-in one |
| `StorageRouting.Router.BlobStoreForMode` | internal/storagerouter/router.go:93-106 | the store of the row chosen for the mode, or the built-in one when there is none or it fails |
| `StorageRouting.Router.ConfigIdForMode` | internal/storagerouter/router.go:116-129 | the id of that row, or the built-in token exactly when there is none |
| `StorageRouting.Router.TargetForMode` | internal/storagerouter/router.go:108-129 | the store and the token of two separate queries belong together: the token leads to that store in the same process, and everywhere when the configuration is unambiguous |
| `StorageRouting.AstrayExactly` | internal/storageconfig/store.go:334-361 | after one step the token of an intact object leads away from the store that holds the bytes exactly when the step is a DELETE of the configuration it names, and the bytes are not in the built-in store |
| `StorageRouting.SecureExactly` | internal/storageconfig/store.go:338-351 | an asset stays clear of every pending deletion exactly unless its own write records the token of a row whose references were already counted |
| `StorageRouting.RaceLosesExactly` | internal/storageconfig/store.go:338-351 | an intact object is one step from being looked for elsewhere exactly when such a deletion of its row is pending and the bytes are not in the built-in store |
| `StorageRouting.LateDeleteLosesAsset` | internal/storageconfig/store.go:338-351 | create, count, write an asset, DELETE: the asset is looked for in the wrong store |
| `StorageRouting.AssetsAreServed` | internal/storagerouter/router.go:137-188 | over every run that leaves backend fields alone, with SetDefault and Delete interleaved between look and write, the token of an asset leads to the store of its bytes unless its own write fell between the count and the DELETE of its row |
| `StorageRouting.ExportArtifactOrphaned` | internal/storageconfig/store.go:339-345 | create, export, delete: the artifact is looked for in the wrong store |
| `StorageRouting.DefaultsSoundExactly` | internal/storageconfig/store.go:224-315 | one step of a run keeps each org at one enabled default at most exactly unless it is the late write of a SetDefault whose row was disabled meanwhile |
| `StorageRouting.DefaultsStaySound` | internal/storageconfig/store.go:224-315 | so they stay sound over every run without such a write |
| `RateLimits.KeepRecent` | internal/alerts/notifier.go:189-194 | the filter that overwrites what it reads keeps exactly the recent times |
| `RateLimits.Notifier.AllowOrg` | internal/alerts/notifier.go:185-201 | one call is one step of the window |
| `RateLimits.RefusedExactly` | internal/alerts/notifier.go:185-201 | refused exactly when the limit went out in the window that ends with the call |
| `RateLimits.RateBounded` | internal/alerts/notifier.go:183-201 | in every run at most the limit goes out in any half-open window |
| `RateLimits.Notifier.ClaimRun` | internal/alerts/notifier.go:167-181 | one claim is one step of the pruned map |
| `RateLimits.Evaluator.ClaimCooldown` | internal/alerts/evaluator.go:241-255 | the same with the age check |
| `RateLimits.ClaimedExactly` | internal/alerts/evaluator.go:238-255 | granted exactly when never granted, or at least the cooldown ago; for a run more than 24 hours ago |
| `RateLimits.Guard.AllowAt` | internal/limits/limits.go:30-47 | one request is one step of the buckets |
| `RateLimits.LimitedExactly` | internal/limits/limits.go:30-47 | refused exactly when the limit has passed in the call's minute |
| `RateLimits.LimitedInMinute` | internal/limits/limits.go:30-47 | after 1970 the minute is the 60 seconds of the clock minute of the call |
| `RateLimits.SpanBounded` | internal/limits/limits.go:30-47 | at most twice the limit in any 60 seconds |
| `EventStream.EventLog.AppendRunDone` | internal/events/store.go:59-91 | appends exactly when the project has no run_done since its last planner_started |
| `EventStream.DoneSinceIs` | internal/events/store.go:66-88 | a run_done is due exactly when every earlier one of the project has a later planner_started of it; other projects do not matter |
| `EventStream.RunDoneOncePerRun` | internal/events/store.go:50-91 | over every interleaving of writers a planner_started lies between two run_done |
| `EventStream.List` | internal/events/store.go:96-121 | an initial part of exactly the project's later events, all of them when shorter than the limit |
| `EventStream.ResumeFromId` | internal/httpapi/sse.go:62-70 | the id line of an event leads back to its seq |
| `EventStream.ResumeExactly` | internal/httpapi/sse.go:58-70 | a positive number in the header is the cursor, anything else starts over |
| `EventStream.Stream.Emit` | internal/httpapi/sse.go:87-113 | the page continues the contiguous piece sent so far; done exactly when it holds a run_done; an unreadable log sends nothing, an unreadable state ends the round |
| `EventStream.StreamEvents` | internal/httpapi/sse.go:45-125 | a connection sends a contiguous piece of the log from its cursor, all of it when its last page was short; it ends itself only after a run_done or a failed read; each state version is sent once, rising |
| `EventStream.SentIncreases` | internal/httpapi/sse.go:87-106 | what is sent is strictly increasing and behind the cursor |
| `EventStream.ReconnectContinues` | internal/httpapi/sse.go:58-70 | two connections joined by the last id have neither gap nor duplicate |
| `LineBreaking.WrapText` | internal/picturebook/render_pdf.go:135-156 | the loop over runes returns the specified lines |
| `LineBreaking.WrapLossless` | internal/picturebook/render_pdf.go:135-156 | the lines of a paragraph concatenate to it |
| `LineBreaking.LinesGood` | internal/picturebook/render_pdf.go:146-152 | every line fits or is a single rune |
| `LineBreaking.BreaksExactly` | internal/picturebook/render_pdf.go:140-156 | a paragraph is broken only where the next rune would make the line too wide |
| `LineBreaking.ParagraphsCompose` | internal/picturebook/render_pdf.go:140-144 | a newline separates paragraphs that do not influence each other |
| `LineBreaking.WrapIsOptimal` | internal/picturebook/render_pdf.go:135-156 | for a width monotone under contiguous parts no other split into such lines is shorter |

## Left out

- Lineage.ChainedRun: does not hold for runs with every retry reset, because the code's reset ignores regeneration; `Lineage.ResetForksExactly` is the exact condition.
- Lineage.TerminalIsFinal: the same reset is the one exception, and it is stated as such.
- StorageRouting.AssetsAreServed: runs that change the backend fields or secret of a configuration are excluded; the token then names the new backend, which the code intends.
- LineBreaking.WrapIsOptimal: needs the width of a part never to exceed the whole, which a font with negative kerning need not give.
- CacheHub.ReachableCoherent: in the runs a reload is one step that succeeds and NOTIFY is reliable; a crashed writer leaves its write unfinished. What a failed reload or send does to one replica is in the methods of `CacheHub.Hub`.
- StateCompute.Compute: the text of the failure is passed through; its sanitising is not modelled.
- GraphProjection.BuildGraph: the library sort is read as a stable insertion sort; for distinct ids the order leaves no choice.
- EventStream.StreamEvents: events become visible in the order of their seq; two inserts that commit in the opposite order are not modelled. With a plan id the list query is not modelled.
- PlanCustom.Planner.PlanCustom: of a todo's input only the variables are modelled, not prompt, style or the row of the plan itself.
- A string is a sequence of bytes, each written as the character with its code.
- Assets.AssetStore.CreateForDispatch: is the only part of the worker's loop that is modelled, with the discard of a canceled todo's asset; claiming and retrying todos are not part of this model.
- Error texts are reduced to constructors; logging, tracing and metrics do not appear.
- Fresh random ids are parameters that the callers must supply fresh; clocks are parameters.
- JSON decoding and encoding, lower-casing and number formatting inside evaluation are parameters of the evaluator.
- Export stages (loading, rendering, uploading) are inputs of the runner; a terminal write that never reaches the database is the Abandon step.
- Storing bytes and recording their token is one step; building a store has no effect besides its result.
- The digest of a secret is hexadecimal of any length; where whole configurations are told apart it is also taken to be injective, which no digest of fixed length is on all texts. Validation of a GitHub API base is not modelled.
- Cover and prescreen updates of assets do not touch the status and are not steps.
- Unconditional status writes of the HTTP handlers, health repairs of diverged projects, authentication, configuration parsing, model and media providers, and document drawing would only add one-branch facts.
