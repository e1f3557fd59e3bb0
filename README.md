# trulens sequential cores, modelled in Dafny

This project models the parts of trulens where a sequential algorithm does the work, and proves properties of those models:

- **Record-viewer call tree** (`RecordTree.dfy`, from `utils.ts`). A record's calls are folded into a tree of stack frames.
  - Every call walks down its stack one cell per level. At each level it picks the first child with that cell's class name whose time interval contains the call's interval, or it appends a new node.
  - At the top cell the walk overwrites the match or appends a leaf.
  - The helpers are also modelled: path names, selectors, and the `nodeId` map.
  - The tree is an arena: `CallTree.nodes` is a sequence of nodes, and `children` and `parentNodes` hold indices into it. Every child sits at a larger index than its parent.
- **Timeline bars** (`Timeline.dfy`, from `TimelineBars.tsx`). `getNodesToRender` walks the same arena in pre-order with depths. It prunes every subtree whose node starts at or after the root's end.
- **Bedrock usage accounting** (`Bedrock.dfy`, from `endpoint.py`).
  - The callbacks read HTTP status, token-count headers and per-chunk invocation metrics, and bump the four counters of a `Cost` object.
  - `BedrockEndpoint.handle_wrapped_call` feeds the same handlers to the global callback and to an optional per-call callback, which may share the global cost object.
- **Benchmark score collection** (`Benchmark.dfy`, from `tru_benchmark_experiment.py`).
  - A feedback result is normalised.
  - Each ground-truth row becomes one task per expected chunk, or one task for the expected response.
  - Results are gathered per row and emitted in row order, split into scores and meta-scores.
- **Prompt text helpers** (`FeedbackText.dfy`, from `feedback.py`):
  - `make_retab`;
  - the `supported_criteria` table;
  - the chain-of-thought score extraction.
- **API-diff flattening** (`ApiFlatten.dfy`, from `test_api.py`): `_flatten`, `_flatten_api_diff`, and the rule by which the compatibility test ignores or reports each difference.
- **LangChain component classification** (`LangChain.dfy`, from `langchain.py`). `constructor_of_class` is a first-match dispatch over `[Prompt, LLM, Other]`.

`Wrappers.dfy` (Option/Result) and `Text.dfy` (split, join, substring search, integer rendering) are shared helpers.

Each imperative source function is a `method` or a class. Its `ensures` ties the result, or the new state, to a specification function of the inputs or of the old state. Lemmas then prove what the source promises about that specification function. For example:
- `Cost` methods update counters in place;
- `CallTree.AddCallToTree` inserts into the arena;
- `CreateNodeMap` pops a queue;
- `ExtractCotExplanationOfResponse` loops over lines;
- `TruBenchmarkExperiment` fills `index_to_results`.

Pure source functions are Dafny functions with lemmas.

## Model

| member | source | states |
|---|---|---|
| RecordTree.GetPathNameInOrder | trulens_eval/trulens_eval/react_components/record_viewer/src/utils/utils.ts:32-52 | A string path is returned unchanged. A structured path renders as the in-order concatenation of each step's text: `.name` for an `item_or_attribute` step, `[i]` for an `index` step, nothing for an empty or unrecognised step. |
| RecordTree.RenderStepsAppend | trulens_eval/trulens_eval/react_components/record_viewer/src/utils/utils.ts:36-51 | Rendering the concatenation of two step lists gives the concatenation of their renderings (the `map`/`filter`/`join('')` works step by step). |
| RecordTree.FindMatch | trulens_eval/trulens_eval/react_components/record_viewer/src/utils/utils.ts:76-81 | The chosen child matches the cell (same class name, `[start ?? 0, end ?? ∞]` containing the call's interval) and no earlier child matches. None is returned iff no child matches. |
| RecordTree.AddCall | trulens_eval/trulens_eval/react_components/record_viewer/src/utils/utils.ts:69-139 | Inserting a call never removes nodes. Every child still sits after its parent in the arena. |
| RecordTree.AddCallThrowsOnlyPastTheStack | trulens_eval/trulens_eval/react_components/record_viewer/src/utils/utils.ts:69-87 | The insertion throws iff the starting index is past the end of the stack (reading the missing stack cell). A throw changes nothing. |
| RecordTree.AddCallOverwritesMatch | trulens_eval/trulens_eval/react_components/record_viewer/src/utils/utils.ts:90-105 | At the last stack cell with a match, no node is added. Only the match's times, `id`, `nodeId` and `raw` are overwritten. Its children and every other node are untouched. |
| RecordTree.AddCallAppendsLeaf | trulens_eval/trulens_eval/react_components/record_viewer/src/utils/utils.ts:107-120 | At the last stack cell without a match, exactly one leaf is appended to the parent's children. It has empty children, `raw` = the call, and `parentNodes` = the parent's followed by the parent. |
| RecordTree.PushChildKeepsWellFormed | trulens_eval/trulens_eval/react_components/record_viewer/src/utils/utils.ts:107-118 | Appending a childless node whose `parentNodes` are its parent's plus the parent keeps the tree well formed. |
| RecordTree.AddCallKeepsWellFormed | trulens_eval/trulens_eval/react_components/record_viewer/src/utils/utils.ts:107-138 | Every insertion keeps each child's `parentNodes` equal to its parent's `parentNodes` followed by the parent. |
| RecordTree.AddCallDepth | trulens_eval/trulens_eval/react_components/record_viewer/src/utils/utils.ts:69-139 | For any stack reaching past `index`, the walk does not throw and the node it writes for the top cell holds the call as `raw` and that cell's class name. It lies exactly `stack.length - index` levels below the starting node, with the starting node on its ancestor path. |
| RecordTree.AddCallKeepsRoot | trulens_eval/trulens_eval/react_components/record_viewer/src/utils/utils.ts:69-139 | Insertion never changes the root's `nodeId`, `id` or `parentNodes`. |
| RecordTree.Root | trulens_eval/trulens_eval/react_components/record_viewer/src/utils/utils.ts:142-160 | The root has `nodeId` `ROOT_NODE_ID`, `id` 0, empty `parentNodes` and no children. |
| RecordTree.BuildFromThrows | trulens_eval/trulens_eval/react_components/record_viewer/src/utils/utils.ts:162-164 | Folding the calls in array order, each from stack index 0, throws iff some remaining call has an empty stack. |
| RecordTree.BuildFromKeepsWellFormed | trulens_eval/trulens_eval/react_components/record_viewer/src/utils/utils.ts:162-164 | Folding any list of calls keeps the tree well formed. |
| RecordTree.BuildFromKeepsRoot | trulens_eval/trulens_eval/react_components/record_viewer/src/utils/utils.ts:141-166 | Folding calls leaves the root's `nodeId`, `id` and `parentNodes` as they were. |
| RecordTree.BuiltTreeRoot | trulens_eval/trulens_eval/react_components/record_viewer/src/utils/utils.ts:141-166 | The built tree is well formed and its root has `nodeId` `ROOT_NODE_ID`, `id` 0 and empty `parentNodes`. |
| RecordTree.NonEmpty | trulens_eval/trulens_eval/react_components/record_viewer/src/utils/utils.ts:172 | `filter(Boolean)` yields exactly the non-empty parts: every string in the output is a non-empty part, every non-empty part is in the output, and the output is no longer than the input. |
| RecordTree.GetSelectorParts | trulens_eval/trulens_eval/react_components/record_viewer/src/utils/utils.ts:169-175 | The selector is `''` for a null node. Otherwise it is `Select.Record`, `path` and `methodName` with empty parts dropped and the rest joined by `.`, written out for all four combinations. |
| RecordTree.Preorder | trulens_eval/trulens_eval/react_components/record_viewer/src/utils/utils.ts:180-190 | The nodes reachable from a node: that node first, then only nodes of the arena after it. |
| RecordTree.QueueOrderOfChildren | trulens_eval/trulens_eval/react_components/record_viewer/src/utils/utils.ts:189 | Pushing a node's children onto the queue schedules exactly the nodes reachable through those children. |
| RecordTree.CallTree.constructor | trulens_eval/trulens_eval/react_components/record_viewer/src/utils/utils.ts:141-160 | A new tree holds only the root and is valid. |
| RecordTree.CallTree.AddCallToTree | trulens_eval/trulens_eval/react_components/record_viewer/src/utils/utils.ts:69-139 | The in-place recursive insertion leaves the arena, the number of ids drawn and the throw flag exactly as `AddCall` says, and keeps the tree well formed. |
| RecordTree.CallTree.AddCalls | trulens_eval/trulens_eval/react_components/record_viewer/src/utils/utils.ts:162-164 | The `forEach` loop leaves the arena as `BuildFrom` says, and keeps the tree well formed. |
| RecordTree.CallTree.CreateNodeMap | trulens_eval/trulens_eval/react_components/record_viewer/src/utils/utils.ts:177-193 | The key set is exactly the set of `nodeId`s of the nodes reachable from the start node. Each key maps to a reachable node carrying that `nodeId`. |
| RecordTree.CreateTreeFromCalls | trulens_eval/trulens_eval/react_components/record_viewer/src/utils/utils.ts:141-166 | It throws (None) iff some call has an empty stack. Otherwise the tree is fresh and valid, its arena is the fold of the calls onto the root, and its root has `ROOT_NODE_ID`, `id` 0 and no parents. |
| Timeline.RenderIsPreorderSubsequence | trulens_eval/trulens_eval/react_components/record_viewer/src/TimelineBars.tsx:15-26 | The emitted nodes are the tree's pre-order (children in array order) with some nodes left out. |
| Timeline.RenderEntries | trulens_eval/trulens_eval/react_components/record_viewer/src/TimelineBars.tsx:13-26 | Every emitted node starts before the root's end. Its depth is the start depth plus the number of levels below the start node. Every ancestor below the start node also starts before the end, so no descendant of a pruned node is visited. |
| Timeline.RenderComplete | trulens_eval/trulens_eval/react_components/record_viewer/src/TimelineBars.tsx:15-26 | Conversely, every node of the subtree that starts before the end, with no pruned node on its way down, is emitted. |
| Timeline.RenderBounds | trulens_eval/trulens_eval/react_components/record_viewer/src/TimelineBars.tsx:11-31 | The output is no longer than the tree's node count. It is empty when the root starts at or after its own end, and otherwise starts with the root at depth 0. |
| Timeline.RenderList.Push | trulens_eval/trulens_eval/react_components/record_viewer/src/TimelineBars.tsx:21 | `children.push({node, depth})` appends exactly one entry. |
| Timeline.RecursiveGetChildrenToRender | trulens_eval/trulens_eval/react_components/record_viewer/src/TimelineBars.tsx:15-26 | The recursive closure appends to the shared list exactly the entries `Render` gives for its node and depth. |
| Timeline.GetNodesToRender | trulens_eval/trulens_eval/react_components/record_viewer/src/TimelineBars.tsx:11-31 | The result is `Render` from the root at depth 0, with the root's end time as cut-off. |
| Bedrock.GenerationCountsSuccess | src/providers/bedrock/trulens/providers/bedrock/endpoint.py:128-154 | A generation handler increases `n_successful_requests` by exactly 1 iff the status is 200 and it completes, and by 0 otherwise. |
| Bedrock.GenerationCountsHeaderTokens | src/providers/bedrock/trulens/providers/bedrock/endpoint.py:137-151 | With status 200, the output-token header is added to `n_completion_tokens`, the input-token header to `n_prompt_tokens`, and both to `n_tokens`. An absent header adds 0. |
| Bedrock.GenerationIgnoresFailedResponses | src/providers/bedrock/trulens/providers/bedrock/endpoint.py:128-160 | A None response, missing `ResponseMetadata`, or a status other than 200 leaves every counter unchanged, without raising. |
| Bedrock.ChunkWithoutMetricsChangesNothing | src/providers/bedrock/trulens/providers/bedrock/endpoint.py:75-91 | A chunk without `chunk`, `bytes` or `amazon-bedrock-invocationMetrics` leaves every counter unchanged. |
| Bedrock.ChunkCountsMetricTokens | src/providers/bedrock/trulens/providers/bedrock/endpoint.py:93-101 | A chunk with metrics adds `outputTokenCount` to completion tokens, `inputTokenCount` to prompt tokens, and both to `n_tokens`. `n_successful_requests` stays the same. |
| Bedrock.HandlersKeepBalance | src/providers/bedrock/trulens/providers/bedrock/endpoint.py:93-154 | Both handlers keep `n_tokens == n_prompt_tokens + n_completion_tokens`, even when they raise half way. No counter ever decreases. |
| Bedrock.RunKeepsBalance | src/providers/bedrock/trulens/providers/bedrock/endpoint.py:39-40 | Any sequence of handler calls keeps the token invariant and never decreases a counter. |
| Bedrock.RunAppend | src/providers/bedrock/trulens/providers/bedrock/endpoint.py:29-40 | Running two handler sequences one after the other is running their concatenation. A raise stops everything after it. |
| Bedrock.ChunkSteps | src/providers/bedrock/trulens/providers/bedrock/endpoint.py:39-40 | The body's chunks are handled one step each, in order. |
| Bedrock.OnEndpointResponseDispatch | src/providers/bedrock/trulens/providers/bedrock/endpoint.py:23-52 | `invoke_model` runs the generation handler only. The stream variant runs it and then each chunk in order, but only when `body` is a Sequence. For a response that is not a dict, the stream variant runs the generation handler and then raises at `response.get`. Any other name changes nothing. |
| Bedrock.RunBothIsRunOfEach | src/providers/bedrock/trulens/providers/bedrock/endpoint.py:366-381 | With two distinct cost objects and no raise, the global and per-call counters each end exactly as the same handler sequence alone would leave them. |
| Bedrock.RunBothGlobalAlone | src/providers/bedrock/trulens/providers/bedrock/endpoint.py:366-381 | Without a per-call callback, the global counters follow the plain handler sequence. |
| Bedrock.Cost.AddTokenCounts | src/providers/bedrock/trulens/providers/bedrock/endpoint.py:139-151 | The in-place `+=` updates (output tokens first, then input tokens) leave the counters as `AddTokens` says, partial update on a raise included. |
| Bedrock.Cost.CountGeneration | src/providers/bedrock/trulens/providers/bedrock/endpoint.py:128-160 | The in-place generation accounting ends in the state `Generation` gives. |
| Bedrock.Cost.CountGenerationChunk | src/providers/bedrock/trulens/providers/bedrock/endpoint.py:75-101 | The in-place chunk accounting ends in the state `Chunk` gives. |
| Bedrock.Cost.CountChunks | src/providers/bedrock/trulens/providers/bedrock/endpoint.py:39-40 | The loop over the chunks ends in the state of running each chunk's handler in order, stopping at the first raise. |
| Bedrock.WrapperBedrockCallback.OnEndpointGeneration | src/providers/bedrock/trulens/providers/bedrock/endpoint.py:103-160 | Updates the callback's cost as `Generation` says. |
| Bedrock.WrapperBedrockCallback.OnEndpointGenerationChunk | src/providers/bedrock/trulens/providers/bedrock/endpoint.py:54-101 | Updates the callback's cost as `Chunk` says. |
| Bedrock.WrapperBedrockCallback.OnEndpointResponse | src/providers/bedrock/trulens/providers/bedrock/endpoint.py:23-52 | Updates the callback's cost as dispatching on the wrapped function's name says. |
| Bedrock.BedrockCallback.HandleGeneration | src/providers/bedrock/trulens/providers/bedrock/endpoint.py:217-275 | Updates the callback's cost as `Generation` says. |
| Bedrock.BedrockCallback.HandleGenerationChunk | src/providers/bedrock/trulens/providers/bedrock/endpoint.py:168-215 | Updates the callback's cost as `Chunk` says. |
| Bedrock.BedrockEndpoint.HandleBoth | src/providers/bedrock/trulens/providers/bedrock/endpoint.py:367-369 | One handler runs on the global callback and then, when present, on the per-call callback. This holds for distinct cost objects and for a shared one, where the handler is applied twice. |
| Bedrock.BedrockEndpoint.HandleChunks | src/providers/bedrock/trulens/providers/bedrock/endpoint.py:376-380 | The `for chunk in body` loop leaves both callbacks' counters as running each chunk handler in order on both gives, stopping at the first raise. |
| Bedrock.BedrockEndpoint.HandleWrappedCall | src/providers/bedrock/trulens/providers/bedrock/endpoint.py:357-389 | The in-place method leaves the global and the per-call counters as `HandleWrappedCallSpec` says, for no callback, a distinct one and one sharing the global cost. |
| Bedrock.RunBothAppend | src/providers/bedrock/trulens/providers/bedrock/endpoint.py:366-381 | Running two step lists on both callbacks one after the other is running their concatenation, and a raise stops the rest. |
| Bedrock.HandleWrappedCallDispatch | src/providers/bedrock/trulens/providers/bedrock/endpoint.py:366-389 | `handle_wrapped_call` runs exactly the handler list `WrappedCallSteps` on its targets: the generation handler for `invoke_model`; for the stream variant also one chunk handler per element of an Iterable body; nothing for any other name. A stream response that is not a dictionary raises after the generation handlers. |
| Bedrock.WrappedCallUpdatesEach | src/providers/bedrock/trulens/providers/bedrock/endpoint.py:366-381 | With two distinct cost objects and no raise, each ends exactly as running that same handler list alone leaves it. |
| Bedrock.WrappedCallUpdatesGlobal | src/providers/bedrock/trulens/providers/bedrock/endpoint.py:366-381 | Without a per-call callback, the global counters follow the handler list. The call raises iff a handler raises or the stream response is not a dictionary. |
| Bedrock.RunBothShared | src/providers/bedrock/trulens/providers/bedrock/endpoint.py:367-369 | A cost object shared by both callbacks receives every handler twice in a row. |
| Bedrock.WrappedCallUpdatesSharedTwice | src/providers/bedrock/trulens/providers/bedrock/endpoint.py:366-381 | With a shared cost object, `handle_wrapped_call` applies every handler of its list twice in a row. |
| Benchmark.Lookup | src/benchmark/trulens/benchmark/benchmark_frameworks/tru_benchmark_experiment.py:193 | The lookup behind `expected_chunk["text"]` finds a value stored under the key, and fails iff no entry has that key. |
| Benchmark.NormaliseOutcomes | src/benchmark/trulens/benchmark/benchmark_frameworks/tru_benchmark_experiment.py:150-160 | A result that is neither float nor tuple raises `ValueError`. A tuple with fewer than two elements, or whose second element is an empty dict, raises `IndexError`. A `(score, dict)` tuple with a non-empty dict becomes `(score, last dict value)`. Floats and tuples of two or more elements whose second element is not a dict are returned unchanged. |
| Benchmark.NormaliseExamples | src/benchmark/trulens/benchmark/benchmark_frameworks/tru_benchmark_experiment.py:155-159 | `(0.5, {"confidence_score": 0.8})` becomes `(0.5, 0.8)`, `0.7` stays, and an int raises `ValueError`. |
| Benchmark.ChunkTasks | src/benchmark/trulens/benchmark/benchmark_frameworks/tru_benchmark_experiment.py:188-195 | One task `(query, chunk["text"])` per chunk, in order. It fails iff there is a chunk and `query` is missing or some chunk has no `text`. |
| Benchmark.RowTasksCases | src/benchmark/trulens/benchmark/benchmark_frameworks/tru_benchmark_experiment.py:187-202 | `expected_chunks` wins. Otherwise `expected_response` yields one task. Otherwise no task is created. Every task carries its row's index. |
| Benchmark.SubmitInRowOrder | src/benchmark/trulens/benchmark/benchmark_frameworks/tru_benchmark_experiment.py:187-202 | Tasks are submitted row by row: their row indices never decrease and stay below the number of rows. |
| Benchmark.GatherIsPerRowResults | src/benchmark/trulens/benchmark/benchmark_frameworks/tru_benchmark_experiment.py:205-212 | A row has a result list iff one of its tasks succeeded. That list is the contributions of exactly its successful tasks, in order; a raising task is dropped. |
| Benchmark.GatherKeys | src/benchmark/trulens/benchmark/benchmark_frameworks/tru_benchmark_experiment.py:205-212 | Processing the completed tasks from a partial map gives row `index` a list iff it already had one or one of its remaining tasks succeeds. |
| Benchmark.GatherValues | src/benchmark/trulens/benchmark/benchmark_frameworks/tru_benchmark_experiment.py:205-212 | A row's final list is its list so far followed by the contributions of its remaining successful tasks, in order. |
| Benchmark.SplitIntoCounts | src/benchmark/trulens/benchmark/benchmark_frameworks/tru_benchmark_experiment.py:218-225 | Every element adds one score. Every non-float element adds one meta-score. An all-float list is copied to the scores unchanged. |
| Benchmark.SplitIntoAppend | src/benchmark/trulens/benchmark/benchmark_frameworks/tru_benchmark_experiment.py:218-225 | Splitting a concatenation is splitting the first part, then the second. |
| Benchmark.AssembleFollowsRowOrder | src/benchmark/trulens/benchmark/benchmark_frameworks/tru_benchmark_experiment.py:215-225 | Output is the split of the per-row lists concatenated in row order 0..n-1. Rows without results contribute nothing. |
| Benchmark.Package | src/benchmark/trulens/benchmark/benchmark_frameworks/tru_benchmark_experiment.py:227-230 | The result is `(scores, meta_scores)` iff `meta_scores` is non-empty, otherwise `scores` alone. |
| Benchmark.AppendKeepsEveryResult | src/benchmark/trulens/benchmark/benchmark_frameworks/tru_benchmark_experiment.py:209 | With `append`, each row's list has exactly one element per successful task. |
| Benchmark.AppendScoresEverySuccess | src/benchmark/trulens/benchmark/benchmark_frameworks/tru_benchmark_experiment.py:204-230 | With `append`, whenever `__call__` returns, it returns exactly one score per successful task over all rows. |
| Benchmark.AppendRowResultsCount | src/benchmark/trulens/benchmark/benchmark_frameworks/tru_benchmark_experiment.py:209 | With `append`, the reference per-row results count one element per successful task. |
| Benchmark.ExtendLosesResults | src/benchmark/trulens/benchmark/benchmark_frameworks/tru_benchmark_experiment.py:209 | As written: a bare float result yields no score, and `(0.5, {"confidence": 0.8})` yields the two scores `[0.5, 0.8]` and no metadata. |
| Benchmark.AppendKeepsResults | src/benchmark/trulens/benchmark/benchmark_frameworks/tru_benchmark_experiment.py:209 | Corrected: the float is one score, and the tuple is score `0.5` with meta-score `0.8`. |
| Benchmark.ArgList.Append | src/benchmark/trulens/benchmark/benchmark_frameworks/tru_benchmark_experiment.py:146 | `list.append` adds exactly one element at the end. |
| Benchmark.TruBenchmarkExperiment.constructor | src/benchmark/trulens/benchmark/benchmark_frameworks/tru_benchmark_experiment.py:48-64 | The experiment keeps its feedback function and benchmark parameters. |
| Benchmark.TruBenchmarkExperiment.RunScoreGenerationOnSingleRow | src/benchmark/trulens/benchmark/benchmark_frameworks/tru_benchmark_experiment.py:140-160 | The caller's list is mutated, ending with the benchmark-params dict. The feedback function is called on that extended list and its result normalised. |
| Benchmark.TruBenchmarkExperiment.SubmitTasks | src/benchmark/trulens/benchmark/benchmark_frameworks/tru_benchmark_experiment.py:186-202 | The submission loops over rows and chunks produce exactly the task list `SubmitFrom` gives, or its error. |
| Benchmark.TruBenchmarkExperiment.SubmitChunks | src/benchmark/trulens/benchmark/benchmark_frameworks/tru_benchmark_experiment.py:189-195 | The loop over `expected_chunks` submits exactly the tasks `ChunkTasks` gives, one per chunk in order, or its error: `KeyError` for a missing `query` or `text`, `TypeError` for a chunk that is not a dict. |
| Benchmark.TruBenchmarkExperiment.GatherResults | src/benchmark/trulens/benchmark/benchmark_frameworks/tru_benchmark_experiment.py:204-212 | The `setdefault(...).extend` loop builds exactly `GatherFrom` in `extend` mode. |
| Benchmark.TruBenchmarkExperiment.Emit | src/benchmark/trulens/benchmark/benchmark_frameworks/tru_benchmark_experiment.py:214-225 | The row-order loop builds exactly the scores and meta-scores of `AssembleFrom`, or the unpacking error. |
| Benchmark.TruBenchmarkExperiment.Call | src/benchmark/trulens/benchmark/benchmark_frameworks/tru_benchmark_experiment.py:162-230 | `__call__`, sequentialised, returns `Collect` in `extend` mode (the code as written). |
| FeedbackText.RetabIndentsEveryLine | trulens_eval/trulens_eval/feedback/v2/feedback.py:17-21 | `make_retab(tab)(s)` is `tab` followed by `s` with every newline replaced by newline-plus-`tab`. It starts with `tab`, and `""` maps to `tab`. |
| FeedbackText.JoinSplitIsIndent | trulens_eval/trulens_eval/feedback/v2/feedback.py:19-20 | Joining the lines of `s` with newline-plus-`tab` is the same as indenting after every newline. |
| FeedbackText.RetabLines | trulens_eval/trulens_eval/feedback/v2/feedback.py:18-20 | `retab` keeps the number of lines. Each output line is `tab` plus the input line, so stripping `tab` gives the input lines back. |
| FeedbackText.SupportedCriteria | trulens_eval/trulens_eval/feedback/v2/feedback.py:108-112 | Same keys as the source table. String values lose every occurrence of " If so, response Y. If not, respond N." and other values are unchanged. |
| FeedbackText.SupportedCriteriaStripsInstruction | trulens_eval/trulens_eval/feedback/v2/feedback.py:108-112 | A criterion that is a question followed by the instruction keeps only the question. |
| FeedbackText.SupportedCriteriaKeepsOthers | trulens_eval/trulens_eval/feedback/v2/feedback.py:108-112 | A criterion without the instruction is unchanged. |
| FeedbackText.LastScoreLine | trulens_eval/trulens_eval/feedback/v2/feedback.py:447-449 | The line found is the last line containing "Score". None iff no line contains it. |
| FeedbackText.ExtractCotExplanationOfResponse | trulens_eval/trulens_eval/feedback/v2/feedback.py:444-452 | With "Supporting Evidence" the result is `(rating(last Score line) / normalize, {"reason": response})`, with score 0 when no line has "Score". Otherwise it is the bare `rating(response) / normalize`. Division by a zero `normalize` raises `ZeroDivisionError`, and only where a division happens. |
| ApiFlatten.FlattenCases | tests/unit/static/test_api.py:135-144 | One pair for a lens longer than one step or a scalar. A dict recurses entry by entry with the key added to the lens; another sequence recurses item by item with the index added. Anything else is `ValueError`. |
| ApiFlatten.FlattenExtendsLens | tests/unit/static/test_api.py:132-142 | Every yielded lens has the starting lens as a prefix. |
| ApiFlatten.FlattenDepthAtMostTwo | tests/unit/static/test_api.py:135-142 | From a lens of at most two steps, every yielded lens has at most two steps. |
| ApiFlatten.FlattenFromRootAtMostTwo | tests/unit/static/test_api.py:132-142 | Starting from the empty lens, every yielded lens has length ≤ 2. |
| ApiFlatten.FlattenApiDiffNonDict | tests/unit/static/test_api.py:154 | A non-dict diff value yields nothing. |
| ApiFlatten.FlattenApiDiffSymbolEntry | tests/unit/static/test_api.py:155-158 | A Symbol key flattens its value at the current lens, each pair tagged with the symbol. A flattening error propagates. |
| ApiFlatten.FlattenApiDiffOtherEntry | tests/unit/static/test_api.py:159-162 | Any other key recurses with the lens extended by that key. |
| ApiFlatten.FlattenApiDiffExtendsLens | tests/unit/static/test_api.py:146-162 | Every flattened difference lies at or below the starting lens. |
| ApiFlatten.Tag | tests/unit/static/test_api.py:157-158 | Each leaf becomes one difference with the symbol, the same lens and the same value, in order. |
| ApiFlatten.CompatFailures | tests/unit/static/test_api.py:200-214 | Insert diffs, diffs whose last step is `.__bases__`, and empty-dict values are ignored, and every other diff is a failure. The loop raises `IndexError` iff a non-insert diff has an empty lens. |
| ApiFlatten.CompatFailuresUpToFirstStop | tests/unit/static/test_api.py:200-214 | The failures are exactly the diffs that are not ignored, in order and with their multiplicity, taken from before the first non-insert diff with an empty lens. The loop raises iff such a diff exists. |
| LangChain.FirstMatching | src/langchain/trulens/ext/instrument/langchain/langchain.py:61-65 | The result is the first view whose `class_is` holds. The loop fails iff none holds. |
| LangChain.ConstructorOfClass | src/langchain/trulens/ext/instrument/langchain/langchain.py:57-65 | `Prompt` iff `Prompt.class_is`; `LLM` iff not Prompt and `LLM.class_is`; `Other` iff neither and the base `Other.class_is`; `TypeError` iff none holds. |
| LangChain.PromptWinsOverLLM | src/langchain/trulens/ext/instrument/langchain/langchain.py:57-63 | A class satisfying both the Prompt and LLM predicates is classified as Prompt. |
| LangChain.OtherMakesClassificationTotal | src/langchain/trulens/ext/instrument/langchain/langchain.py:56-65 | When the base `Other.class_is` holds, classification never raises. |
| LangChain.UnsortedParametersSkip | src/langchain/trulens/ext/instrument/langchain/langchain.py:23-43 | `Prompt` skips `{"template"}` and `LLM` skips `{"model_name"}`: exactly the key its accessor reads. `Other` does not override. |
| LangChain.Accessor | src/langchain/trulens/ext/instrument/langchain/langchain.py:19-40 | `template` / `model_name` return `json[key]`, and raise `KeyError` iff the key is missing. |
| Text.JoinSplit | trulens_eval/trulens_eval/feedback/v2/feedback.py:19-20 | Joining the pieces of `s.split(c)` with `c` gives `s` back. |
| Text.SplitLength | trulens_eval/trulens_eval/feedback/v2/feedback.py:19 | `s.split(c)` has one more piece than `s` has occurrences of `c`. |

## Left out

- Concurrency: the benchmark's `ThreadPoolExecutor` / `as_completed` is sequentialised, with tasks completing in submission order. Other completion orders are not modelled.
- `uuid.v4()` (utils.ts line 129) and `Date.toISOString` are parameters of `CallTree` (`uuid(k)` is the k-th draw, `iso(t)` the rendering of a time).
- RecordTree: timestamps are integers. `getStartAndEndTimes` (utils.ts lines 62-67) is the identity on optional integers, so a date string that is present but invalid is not modelled.
- RecordTree: `addCallToTree` takes `call.stack` as its stack argument, as its only caller does.
- RecordTree: a call's `args`, `error`, `rets`, `pid` and `tid` are not modelled, because the tree code never reads them.
- RecordTree: `if (!tree.children) tree.children = []` is a no-op, because every node of the arena has a children list.
- RecordTree.CallTree.CreateNodeMap: it does not say which node wins when several reachable nodes share a `nodeId`, only that each key maps to a reachable node carrying it.
- RecordTree: `getClassNameFromCell` and `getMethodNameFromCell` are not part of this model. A stack cell carries its class name and method name directly.
- Timeline: `getStartAndEndTimesForNode` is not part of this model. The start and end time of a node are a function parameter `times`. The `NodeBar` rendering is left out.
- Bedrock: response bodies are already-decoded documents, so `json.loads(data.decode())` appears as the `bytes` key already holding a dictionary. A `bytes` value that decodes to JSON `null` is therefore the same document as a missing `bytes` key, so the model returns without raising where `data.get(...)` on `None` raises `AttributeError` (endpoint.py lines 85-87).
- Bedrock: only counts that are natural numbers are modelled. A header or metric value that `int(...)` accepts as a negative number (`"-3"`), truncates from a float (`2.9`) or converts from a bool is not represented. Every other present value is taken to be one on which `int(...)` raises.
- Bedrock.HandlersKeepBalance: "no counter decreases" (and the same clause of `RunKeepsBalance`) holds only because counts are natural. A negative count accepted by `int(...)` would lower the token counters.
- Bedrock: iterating over a dictionary body yields its keys, modelled as empty strings. A chunk handler raises on any string at once, so the key order does not matter.
- Bedrock: the full schema of the source's `Cost` class is not modelled; only its four counters, starting at 0, are.
- Bedrock: the base-class `super()` handlers are taken not to touch the four counters; the boto3 client, `_instrument_class` and logging are left out.
- Benchmark: scores are opaque values and no arithmetic is done on them. Python floats are `real`.
- Benchmark: `iterrows` is modelled as rows with index 0..n-1, as line 215 takes for granted. The `@instrument` decorator and the `Feedback`/`Select` set-up in `__init__` are left out.
- Benchmark.Lookup: with duplicate keys in a dictionary, the model takes the first entry.
- FeedbackText.ExtractCotExplanationOfResponse: `re_1_10_rating` is an uninterpreted total function, so a parse failure inside it is not modelled.
- FeedbackText.ExtractCotExplanationOfResponse: the initial integer score `0` is the real `0.0`.
- FeedbackText: `str_help`, the class-hierarchy declarations and pydantic validation are left out.
- LangChain: `component_of_json` and `Class.of_class_info` are not part of this model. `noserio_issubclass` and the base `Other.class_is` are uninterpreted.
- ApiFlatten: the YAML and golden-file I/O of the test, `jsondiff.diff` itself and the `subTest` mechanics are left out. Failures are collected as a list.

## Findings

Line 209 collects a task's result with `list.extend` where `append` is evidently meant. `ExtendLosesResults` models the code as written. The corrected behaviour is proved through `Benchmark.Collect` in `Append` mode by `AppendKeepsResults` and, for all inputs, by `AppendKeepsEveryResult` (one element per successful task in each row) and `AppendScoresEverySuccess` (one score per successful task in the value `__call__` returns). `TruBenchmarkExperiment.Call` keeps the behaviour as written.

| source | as written | input that shows it | evidently intended | confidence | as-written member | corrected member |
|---|---|---|---|---|---|---|
| src/benchmark/trulens/benchmark/benchmark_frameworks/tru_benchmark_experiment.py:209 | `index_to_results.setdefault(index, []).extend(ret_lst)`: a float result is not iterable, so it raises and is dropped by the handler; a normalised `(score, meta)` tuple is spliced into two bare scores | one row with `query` and `expected_response`, and a feedback function returning `0.7` (gives `[]`) or `(0.5, {"confidence": 0.8})` (gives `[0.5, 0.8]` and no metadata) | `append(ret_lst)`: one entry per task, so `[0.7]`, and `([0.5], [0.8])` | not executed | Benchmark.ExtendLosesResults | Benchmark.AppendKeepsResults |
