# flock execution core, in Dafny

flock is a DuckDB extension that exposes large language models as SQL
functions: scalar functions (`llm_complete`, `llm_filter`,
`llm_embedding`) and aggregates (`llm_reduce`, `llm_rerank`, `llm_first`,
`llm_last`). It also adds DDL statements (`CREATE MODEL`, `GET PROMPTS`, …)
that manage stored models and prompts, and it keeps per-query usage
metrics. This project models the sequential, deterministic heart of that
extension and proves properties of it.

The model provider is a parameter. An engine's calls are numbered, and an
`Oracle` (`nat -> Reply`) answers call `k` with items, the
distinguished `Overflow` (the provider's "maximum output tokens exceeded"
error) or a failure. Every engine returns, along with its result, the trace
of `Step`s it made: the rows it sent, the request, and the reply. The
contracts relate the result to that trace.

Modules, following the source's structure:

- `Json`, `Wrappers`, `Text`, `Columns`: JSON values with nlohmann's typed
  accessors; `Result`/`Option`; `to_string`, `stoi`, `find`, the 32-bit
  narrowing; columns of a batch (`data` plus metadata) and slicing.
- `Accumulator`: the aggregate state (`Initialize`, `Update`, `Combine`,
  `Destroy`) as positional concatenation of columns, with first-write-wins
  metadata.
- `Batching`, `ScalarEngine`, `ReduceEngine`, `FirstLastEngine`,
  `RerankEngine`, `RerankFinalize`, `RowIds`: the four batching loops. Each
  shrinks the batch to ⌊0.9·size⌋ on overflow and fails at zero. The
  `flock_row_id` validation and the per-state finalizers are here too.
- `ScalarFunctions`, `Embedding`, `FunctionBinding`, `InputParser`:
  result post-processing of `llm_complete` and `llm_filter`, embedding
  input shaping, bind-time argument checks, and casting of the prompt
  struct's rows.
- `PromptText`, `PromptTuples`, `PromptRender`: marker replacement, the XML,
  Markdown and JSON tuple blocks, column partitioning, prompt details and
  `Render`.
- `Tokens`, `ModelParser`, `PromptParser`, `QueryParser`: the DDL parsers
  over a token sequence, their printers (for the round trips), the
  dispatcher, and SQL literal quoting.
- `Metrics`, `MetricsManager`, `MetricsReport`: the metrics ledger keyed by
  thread, state and function kind; registration order; merging of aggregate
  states; and the flattened, densely numbered report.
- `ModelDetailsLoading`, `Providers`, `ProviderHandler`, `UrlHandler`:
  model-detail resolution, provider names, the handler's request queue and
  the result loop of `ExecuteBatch`, and the URL, file and Base64 helpers
  (section 4 of RFC 4648).

Where the design text and the code disagree, the code is modelled. The
design says an over-long scalar reply is cut to the row count. The code
(`scalar.cpp:128-130`) cuts it after as many items as the batch has columns,
and `ScalarEngine.Fit` does that. `ScalarEngine.FitLongReply` states the
consequence.

## Model

| member | source | states |
|---|---|---|
| Accumulator.Initialize | src/functions/aggregate/aggregate_state.cpp:5-8 | a fresh state holds an empty array and is marked initialised |
| Accumulator.AddColumn | src/functions/aggregate/aggregate_state.cpp:21-31 | merging a column appends the incoming data after the old data; a metadata key keeps the value written first |
| Accumulator.Absorb | src/functions/aggregate/aggregate_state.cpp:15-33 | column `i` of the input merges into column `i` of the state, which gains empty columns as needed; later state columns stay |
| Accumulator.Update | src/functions/aggregate/aggregate_state.cpp:10-34 | a null state is first initialised, then every input column is merged at its position |
| Accumulator.Combine | src/functions/aggregate/aggregate_state.cpp:36-68 | the source's columns are merged into the target's; a null source leaves the (initialised) target unchanged |
| Accumulator.Destroy | src/functions/aggregate/aggregate_state.cpp:70-76 | a destroyed state is null and not initialised |
| Accumulator.AbsorbIdentity | src/functions/aggregate/aggregate_state.cpp:10-34 | merging an empty batch, or into an empty state, changes nothing |
| Accumulator.AddColumnAssociative | src/functions/aggregate/aggregate_state.cpp:21-31 | merging columns is associative, data and metadata alike |
| Accumulator.AbsorbAssociative | src/functions/aggregate/aggregate_state.cpp:36-68 | merging partial states is associative, so the grouping in which DuckDB combines them does not change the result |
| Accumulator.RowTuple | src/include/flock/functions/aggregate/aggregate.hpp:94-106 | the tuple for row `i` has one column per input column, holding that row's value (null past the end) and the column's metadata |
| Accumulator.Operation | src/include/flock/functions/aggregate/aggregate.hpp:86-112 | feeding rows one at a time touches only the states the rows point to, and no state is created or removed |
| Accumulator.SimpleUpdate | src/include/flock/functions/aggregate/aggregate.hpp:115-122 | the whole batch is merged into the one state; every other state is unchanged |
| Accumulator.OperationMatchesSimpleUpdate | src/include/flock/functions/aggregate/aggregate.hpp:86-122 | feeding the rows of one group one at a time leaves the state exactly as merging the whole batch at once |
| Accumulator.UpdateTwice | src/functions/aggregate/aggregate_state.cpp:10-34 | two successive updates equal one update with the two inputs merged |
| Accumulator.CombineAll | src/include/flock/functions/aggregate/aggregate.hpp:125-140 | the vectorised combine only changes target states, and creates or removes none |
| Accumulator.CombineAllPairwise | src/include/flock/functions/aggregate/aggregate.hpp:125-140 | with distinct targets disjoint from the sources, every target ends up as its own combination with its source and the sources are unchanged |
| Accumulator.DestroyAll | src/include/flock/functions/aggregate/aggregate.hpp:143-152 | every listed non-null state is reset and every other state is unchanged |
| Accumulator.FinalizeSafe | src/include/flock/functions/aggregate/aggregate.hpp:158-164 | exactly the `count` slots from `offset` receive the text `[]` |
| Batching.OutputTypeString | src/include/flock/model_manager/providers/provider.hpp:44-56 | the four output types have four distinct JSON-schema names |
| Batching.OutputTypeStringInjective | src/include/flock/model_manager/providers/provider.hpp:44-56 | different output types never share a name |
| Batching.First | src/functions/aggregate/llm_reduce/implementation.cpp:27 | the first item of a reply, or null when the reply has none |
| Batching.Shrink | src/functions/scalar/scalar.cpp:137 | the shrunk batch size is never larger, and strictly smaller for a positive size |
| Batching.CallsWithoutOverflow | src/functions/scalar/scalar.cpp:100-143 | without an overflow a loop over `n` rows with batch size `bs` calls the provider exactly ceil(n / bs) times |
| Batching.StartsWithoutOverflow | src/functions/scalar/scalar.cpp:100-143 | without an overflow call `i` starts at row `i * bs` with the initial size |
| Batching.StartsNonDecreasing | src/functions/scalar/scalar.cpp:119-141 | the loop never moves back: a retry keeps its start and a success advances it |
| Batching.ScheduleStartsBelow | src/functions/scalar/scalar.cpp:100-143 | every call starts at a row that exists |
| Batching.ScheduleSizesPositive | src/functions/scalar/scalar.cpp:135-141 | every call asks for a positive number of rows |
| ScalarEngine.ScalarRequest | src/functions/scalar/scalar.cpp:70-81 | a sub-batch asks for one output per row, boolean for a filter and text otherwise |
| ScalarEngine.Fit | src/functions/scalar/scalar.cpp:124-130 | a short reply is padded with nulls to the row count; a long one is cut after as many items as the batch has columns |
| ScalarEngine.FitShortReply | src/functions/scalar/scalar.cpp:124-127 | a reply no longer than the sub-batch gives exactly one value per row, its own items first |
| ScalarEngine.FitLongReply | src/functions/scalar/scalar.cpp:128-130 | a reply longer than the sub-batch keeps as many items as there are columns, whatever the row count |
| ScalarEngine.Round | src/functions/scalar/scalar.cpp:100-143 | one pass of the loop either stops with the run's outcome or continues from a later start or with a smaller batch |
| ScalarEngine.BatchAndComplete | src/functions/scalar/scalar.cpp:83-146 | a non-positive batch size fails before any call; otherwise the calls follow the shrink-and-retry schedule, each asks for its rows, and the result is the fitted replies in order or the first error |
| ScalarEngine.ExtendCollected | src/functions/scalar/scalar.cpp:132-134 | each successful call appends its fitted reply to the results; failed and overflowed calls add nothing |
| ScalarEngine.CollectedReachesPosition | src/functions/scalar/scalar.cpp:100-143 | when no reply is too long, the results after each call number exactly the rows the loop has passed |
| ScalarEngine.ScalarRowsPreserved | src/functions/scalar/scalar.cpp:83-146 | every row gets exactly one result when no reply is longer than its sub-batch, overflow retries included |
| ScalarFunctions.ContextColumns | src/functions/scalar/llm_complete/implementation.cpp:43-47 | the `context_columns` member of the cast prompt rows, or an empty array when there is none |
| ScalarFunctions.ColumnsOf | src/functions/scalar/scalar.cpp:89-117 | a `context_columns` array is readable exactly when every entry is an object with a `data` array; it then yields one column per entry, otherwise the index error |
| ScalarFunctions.ColumnsOfRoundTrip | src/functions/scalar/scalar.cpp:103-117 | reading the columns loses nothing: written back as JSON they are the array they came from |
| ScalarFunctions.BatchReadsBack | src/functions/scalar/scalar.cpp:103-117 | a batch written as JSON reads back as itself when no metadata key is `data` |
| ScalarFunctions.FilterText | src/functions/scalar/llm_filter/implementation.cpp:63-68 | a null answer reads as `true`; any other answer as its JSON text |
| ScalarFunctions.Texts | src/functions/scalar/llm_complete/implementation.cpp:69-76 | one text per answer, in order: a string as it is and anything else as its dump for `llm_complete`, the filter reading for `llm_filter` |
| ScalarFunctions.Operation | src/functions/scalar/llm_complete/implementation.cpp:37-79 | without context columns one call asks for a single output and its first item is the one result; with columns the batching loop runs and its outcome is written as text; cast and batch-size errors make no call |
| ScalarFunctions.Written | src/functions/scalar/llm_filter/implementation.cpp:89-92 | result `i` lands in row `i` for every result the chunk has room for; other rows are not written |
| ScalarFunctions.ExecuteCompleteFills | src/functions/scalar/llm_complete/implementation.cpp:93-103 | every row of the chunk gets a result exactly when there is one result or at least one per row, and a single result goes to every row |
| ScalarFunctions.FilterLeavesRowsUnwritten | src/functions/scalar/llm_filter/implementation.cpp:50-58 | as written, a filter without context columns writes its one answer to the first row only |
| ScalarFunctions.FilterAnswersEveryRow | src/functions/scalar/llm_filter/implementation.cpp:87-92 | corrected, the single answer goes to every row, and with one result per row each row keeps its own |
| ScalarFunctions.Begin | src/functions/scalar/llm_complete/implementation.cpp:84-86 | every scalar `Execute` opens its invocation under a fresh id that stays below the 64-bit limit |
| ScalarFunctions.BeginFresh | src/functions/scalar/llm_filter/implementation.cpp:78-80 | until the counter wraps, the invocation opens under the next id, the thread's context points to it, and no other database's metrics change |
| Embedding.CheckKeys | src/functions/scalar/llm_embedding/implementation.cpp:30-35 | the inputs pass exactly when `context_columns` is their only key; otherwise the error names the least other key, the first the library visits |
| Embedding.CheckTypes | src/functions/scalar/llm_embedding/implementation.cpp:36-40 | the check passes exactly when no column raises an error, and otherwise reports the first column that does |
| Embedding.TextColumnsPass | src/functions/scalar/llm_embedding/implementation.cpp:36-40 | columns without a type, or typed by a string other than `image`, always pass |
| Embedding.SpacedSnoc | src/functions/scalar/llm_embedding/implementation.cpp:50-53 | adding a column to a row appends its text and one space |
| Embedding.UnspacedSpaced | src/functions/scalar/llm_embedding/implementation.cpp:50-54 | as long as no cell holds a space, splitting the joined row at its spaces gives back its cells, so distinct rows give distinct inputs |
| Embedding.PrepareInputs | src/functions/scalar/llm_embedding/implementation.cpp:47-55 | the inputs are built exactly when every cell read is a string: one text per row of the first column, that row's cells in column order each followed by a space |
| Embedding.EffectiveBatchSize | src/functions/scalar/llm_embedding/implementation.cpp:57-61 | a size of zero, or one above the input count, becomes the input count; a size in range is kept |
| Embedding.Chunks | src/functions/scalar/llm_embedding/implementation.cpp:63-69 | the requests hold the inputs in order, in runs of the batch size, only the last one shorter and none empty |
| Embedding.ChunksUnique | src/functions/scalar/llm_embedding/implementation.cpp:63-69 | any split of the inputs into full runs followed by a shorter non-empty run is the one the loop makes |
| Embedding.Flatten | src/functions/scalar/llm_embedding/implementation.cpp:71-81 | the result lists every embedding of every response in order, and fails exactly when some value is not a number |
| Embedding.Requests | src/functions/scalar/llm_embedding/implementation.cpp:57-69 | the queued requests together hold exactly the prepared inputs, in order |
| Embedding.Operation | src/functions/scalar/llm_embedding/implementation.cpp:29-83 | the checks run in the source's order and each failure queues nothing; otherwise the requests hold every row's joined text, the collector is asked only when something was queued, and the embeddings come back flattened |
| Embedding.Execute | src/functions/scalar/llm_embedding/implementation.cpp:99-102 | embedding `i` is written to row `i` for every embedding the chunk has room for |
| FirstLastEngine.PickId | src/functions/aggregate/llm_first_or_last/implementation.cpp:24-64 | an accepted pick is an integer or a string answer whose text is one of the batch's listed ids; any other answer is rejected with its dump |
| FirstLastEngine.PickIdCanonical | src/functions/aggregate/llm_first_or_last/implementation.cpp:24-64 | when every listed id prints a row index in a range, an accepted pick lies in that range |
| FirstLastEngine.PickIdAcceptsListedRow | src/functions/aggregate/llm_first_or_last/implementation.cpp:38-64 | conversely, naming a listed row, as an integer or as its printed id, picks that row |
| FirstLastEngine.Winner | src/functions/aggregate/llm_first_or_last/implementation.cpp:120-131 | after an accepted pick the array holds every column but the id column, cut to the picked row of the input |
| FirstLastEngine.Refill | src/functions/aggregate/llm_first_or_last/implementation.cpp:97-113 | at the first rows the refill adds one column per input column to what is held; further on it keeps the wider of the two arrays |
| FirstLastEngine.ShortGroup | src/functions/aggregate/llm_first_or_last/implementation.cpp:70-86 | a group of at most one row returns every column but the id column, cut to its first row |
| FirstLastEngine.EvaluateStep | src/functions/aggregate/llm_first_or_last/implementation.cpp:96-140 | one pass keeps the calls a faithful schedule, and the array kept is the champion after an accepted pick and the rendered array otherwise |
| FirstLastEngine.Round | src/functions/aggregate/llm_first_or_last/implementation.cpp:96-140 | one pass either stops with the outcome or continues from a later start or with a smaller batch |
| FirstLastEngine.Evaluate | src/functions/aggregate/llm_first_or_last/implementation.cpp:67-143 | at most one row is answered without a call; a non-positive batch size fails before any call; otherwise the calls follow the shrink-and-retry schedule and the result is the last champion or the first error |
| FirstLastEngine.OverflowKeepsStaleRows | src/functions/aggregate/llm_first_or_last/implementation.cpp:96-113 | a retry after an overflow renders the stale array again: at the first rows it gains another set of columns, further on the rows are appended a second time |
| FirstLastEngine.FirstRequest | src/functions/aggregate/llm_first_or_last/implementation.cpp:96-113 | the first call is rendered from the first rows of every column, the id column included |
| FirstLastEngine.RefillAfterWinner | src/functions/aggregate/llm_first_or_last/implementation.cpp:97-131 | after an accepted pick the next array holds the champion then the new rows in every column but the id column, which holds only the new rows |
| FirstLastEngine.RequestAfterPick | src/functions/aggregate/llm_first_or_last/implementation.cpp:96-140 | a call after a successful one was rendered from the champion followed by the next rows |
| FirstLastEngine.PickFromSlice | src/functions/aggregate/llm_first_or_last/implementation.cpp:24-64 | when the id column holds the ids of some rows, an accepted pick names one of them |
| FirstLastEngine.PickInNewRows | src/functions/aggregate/llm_first_or_last/implementation.cpp:96-140 | a pick accepted at the first call, or right after a successful call, names a row of the call's own window |
| FirstLastEngine.ChampionNeverReselected | src/functions/aggregate/llm_first_or_last/implementation.cpp:96-140 | while no call has overflowed, every accepted pick is a later row than every earlier one, so the champion is never named again |
| FirstLastEngine.PickAfterItems | src/functions/aggregate/llm_first_or_last/implementation.cpp:96-140 | a pick accepted while the previous call did not overflow lies in its own window |
| FirstLastEngine.OverflowReadmitsChampion | src/functions/aggregate/llm_first_or_last/implementation.cpp:96-140 | after an overflow the retry still lists the ids of the larger window, so an answer naming the first row past the window is accepted, and the next call offers that row again and accepts the same answer |
| FirstLastEngine.RetryShape | src/functions/aggregate/llm_first_or_last/implementation.cpp:132-138 | the retry after an overflow that followed a pick refills the overflowing array at the same start with a smaller size |
| FirstLastEngine.RetryKeepsLargerWindow | src/functions/aggregate/llm_first_or_last/implementation.cpp:97-113 | the retry's id column still lists the first row past its own window |
| FirstLastEngine.WithIdsNumbered | src/functions/aggregate/llm_first_or_last/implementation.cpp:199-204 | a group with no column of its own named `flock_row_id` gets the ids `0 .. n-1` in a last column |
| FirstLastEngine.FinalizeResults | src/functions/aggregate/llm_first_or_last/implementation.cpp:145-227 | each state is finalized in turn with its own provider: null or empty states give SQL NULL, at most one row gives the first row, otherwise the tournament's winner; the first error aborts, and exactly the tournaments run are recorded for the metrics merge |
| FirstLastEngine.FinalizeOne | src/functions/aggregate/llm_first_or_last/implementation.cpp:162-221 | one state's slot is its evaluation's result, with an empty prompt refused before any call |
| ProviderHandler.Caught | src/include/flock/model_manager/providers/handlers/base_handler.hpp:240-242 | the outer catch rethrows exactly when the handler was built to throw, and otherwise leaves a null slot with no tokens |
| ProviderHandler.Handle | src/include/flock/model_manager/providers/handlers/base_handler.hpp:222-245 | one response ends the batch with the overflow error only in the corrected handler; any other error leaves the batch only from a throwing handler; a handled response fills its slot exactly when it parses, passes its checks and yields its usage and output, and is null otherwise; transcriptions count no tokens |
| ProviderHandler.ExecuteBatchWith | src/include/flock/model_manager/providers/handlers/base_handler.hpp:213-264 | a completed batch has one result and one API call per request, and reports token totals exactly for completions and embeddings |
| ProviderHandler.ExecuteBatchAsWritten | src/include/flock/model_manager/providers/handlers/base_handler.hpp:222-245 | as written, whatever leaves the batch is an ordinary runtime error, the overflow included |
| ProviderHandler.RunPrefixPointwise | src/include/flock/model_manager/providers/handlers/base_handler.hpp:213-253 | the result loop runs to the end exactly when every response is handled, and then slot `i` is what response `i` gave |
| ProviderHandler.RunPrefixFirstFailure | src/include/flock/model_manager/providers/handlers/base_handler.hpp:213-253 | a stopped loop carries the failure of the first response that threw |
| ProviderHandler.ExecuteBatchResults | src/include/flock/model_manager/providers/handlers/base_handler.hpp:213-264 | the batch completes exactly when every response is handled, with result `i` taken from response `i`, in request order |
| ProviderHandler.QuietHandlerCompletes | src/include/flock/model_manager/providers/handlers/base_handler.hpp:298-304 | a handler that only logs, or a batch of clean responses, completes whenever no response overflows, in both readings |
| ProviderHandler.OverflowBecomesRuntimeError | src/include/flock/model_manager/providers/handlers/base_handler.hpp:222-242 | as written, a throwing handler turns an overflow into a runtime error carrying the processing prefix and the overflow text |
| ProviderHandler.OverflowPropagates | src/include/flock/model_manager/providers/provider.hpp:60-65 | corrected, the first overflowing response ends the batch with the overflow error that the engines catch |
| ProviderHandler.EngineReply | src/functions/scalar/scalar.cpp:135-138 | an engine sees its overflow reply exactly when the batch raised the overflow error |
| ProviderHandler.OnlyCorrectedOverflows | src/functions/scalar/scalar.cpp:135-138 | as written, no collected batch ever gives an engine its overflow reply |
| ProviderHandler.TriggerError | src/include/flock/model_manager/providers/handlers/base_handler.hpp:298-304 | the prefixed message is thrown exactly when the handler was built to throw |
| ProviderHandler.AddRequest | src/include/flock/model_manager/providers/handlers/base_handler.hpp:22-25 | the request and its type are appended to their arrays, the earlier entries unchanged, keeping a valid or aligned queue so |
| ProviderHandler.CollectAll | src/include/flock/model_manager/providers/handlers/base_handler.hpp:27-39 | a non-empty queue runs as one batch; an exception leaves the queue as it was, otherwise the requests are cleared and, as written, the types are kept; validity is preserved, and alignment when the types are cleared too |
| ProviderHandler.QuietCollectionSwallowsOverflow | src/include/flock/model_manager/providers/handlers/base_handler.hpp:27-32 | as written, a handler that only logs completes a batch with an overflowing response, leaves that slot null and clears the requests |
| ProviderHandler.CollectedOverflow | src/include/flock/model_manager/providers/handlers/base_handler.hpp:27-32 | as written, a throwing handler never hands the engines their overflow signal; corrected, the first overflow ends the batch with it and the queue is kept |
| ProviderHandler.FilterPartition | src/include/flock/model_manager/providers/handlers/base_handler.hpp:46-50 | the transcriptions selected and the requests left split the range as a multiset |
| ProviderHandler.FilterTypes | src/include/flock/model_manager/providers/handlers/base_handler.hpp:46-50 | the types a filter keeps are all of the kind it selects |
| ProviderHandler.WithoutTranscriptionsValid | src/include/flock/model_manager/providers/handlers/base_handler.hpp:55-60 | removing the transcriptions keeps the queue valid, an aligned queue aligned, and leaves no transcription type beside a request |
| ProviderHandler.CollectTranscriptions | src/include/flock/model_manager/providers/handlers/base_handler.hpp:42-64 | only the requests whose type is a transcription run, in order; nothing runs when there are none; after a completed batch they are removed with their types, and an exception leaves the queue unchanged |
| ProviderHandler.RemoveTranscriptions | src/include/flock/model_manager/providers/handlers/base_handler.hpp:55-60 | the backward erase loop leaves exactly the queue without its transcriptions |
| ProviderHandler.StaleTypeHidesTranscription | src/include/flock/model_manager/providers/handlers/base_handler.hpp:27-60 | as written, a collected completion leaves its type queued, so a transcription queued next sits beside the stale type and is neither run nor removed |
| ProviderHandler.ClearedTypesRunTranscription | src/include/flock/model_manager/providers/handlers/base_handler.hpp:27-60 | corrected, the same sequence empties the queue and then runs the transcription |
| ProviderHandler.CorrectedKeepsAligned | src/include/flock/model_manager/providers/handlers/base_handler.hpp:22-60 | corrected, every queue operation keeps each request beside its own type |
| ProviderHandler.TranscriptionsPartition | src/include/flock/model_manager/providers/handlers/base_handler.hpp:42-60 | the requests run and the requests kept are, together, exactly the queue |
| ProviderHandler.DefaultContentType | src/include/flock/model_manager/providers/handlers/base_handler.hpp:27-42 | transcriptions are sent as multipart form data and every other collection as JSON |
| InputParser.Strip | src/functions/input_parser.cpp:13-26 | on a column whose cleaned keys hold strings, one pass reports whether the key is set to something other than `NULL` and erases it exactly when it is not |
| InputParser.StripStep | src/functions/input_parser.cpp:13-26 | each pass drops its key from what the earlier passes kept exactly when the key holds `NULL` |
| InputParser.StripAll | src/functions/input_parser.cpp:13-27 | the four passes keep every key but the cleaned ones that hold `NULL` |
| InputParser.PassesMeetNonString | src/functions/input_parser.cpp:16 | a cleaned key holding something other than a string stops the passes with the library's type error |
| InputParser.StripObject | src/functions/input_parser.cpp:13-26 | a pass over an object fails only on a non-string key and touches no other key |
| InputParser.CleanPassesAgree | src/functions/input_parser.cpp:8-39 | the passes as the source runs them equal the stated cleaning: objects only, string keys only, a transcription model exactly on audio columns with the error texts, then the `NULL` keys dropped |
| InputParser.LeastExists | src/functions/input_parser.cpp:58-62 | every non-empty set of keys has a first key in the library's map order |
| InputParser.Least | src/functions/input_parser.cpp:58-62 | the key `items()` visits first comes before every other key |
| InputParser.CheckColumn | src/functions/input_parser.cpp:57-69 | an entry passes exactly when all its keys are allowed and `data` is among them; otherwise the first unexpected key in map order is reported, then a missing `data` |
| InputParser.AddColumn | src/functions/input_parser.cpp:71-78 | adding an entry never touches the other members and leaves a column at the entry's position |
| InputParser.CastFieldsKeys | src/functions/input_parser.cpp:44-88 | a row read without error stores one member per child other than `context_columns` |
| InputParser.NewColumn | src/functions/input_parser.cpp:73-78 | an entry at a position not yet reached is pushed cleaned, with its data as the only value |
| InputParser.CastColumnsStep | src/functions/input_parser.cpp:54-79 | one entry read and added moves the list on by one entry |
| InputParser.FirstRowColumns | src/functions/input_parser.cpp:71-78 | the first row's list creates one cleaned column per entry, in order |
| InputParser.AppendToColumn | src/functions/input_parser.cpp:72 | appending data to a column adds it at the end of its `data` array |
| InputParser.NextRowColumns | src/functions/input_parser.cpp:71-72 | a later row's list of as many entries appends each entry's data to the column at its position and changes nothing else |
| InputParser.PlainFields | src/functions/input_parser.cpp:80-87 | children other than the list, with an INTEGER `batch_size`, read without error and leave the columns alone |
| InputParser.CastFieldsConcat | src/functions/input_parser.cpp:45-88 | reading two runs of children reads the first, then the second from where it left off |
| InputParser.ReadRow | src/functions/input_parser.cpp:45-88 | a row does to the columns what its list does |
| InputParser.LaterRows | src/functions/input_parser.cpp:44-89 | the rows after the first append their data column by column |
| InputParser.ContextColumnsAccumulate | src/functions/input_parser.cpp:41-91 | rows whose lists all have `n` entries read to `n` columns, each keeping the cleaned keys of its first-row entry and holding the data of every row, in row order |
| InputParser.StructMembersKeys | src/functions/input_parser.cpp:105-119 | the members are named by exactly the non-null children |
| InputParser.StructMembersValues | src/functions/input_parser.cpp:105-119 | each member holds the last non-null child of its name |
| InputParser.CastValueToJsonMeaning | src/functions/input_parser.cpp:93-123 | NULL and non-struct values give null; a struct gives an object exactly when a child is non-null, with one member per name of a non-null child, holding the last such child |
| Json.PushBack | src/functions/input_parser.cpp:72-77 | `push_back` succeeds exactly on null and arrays, turning null into a one-element array and appending to an array; anything else is an error |
| Json.Field | src/model_manager/model.cpp:23 | a member is found exactly when the value is an object holding the key, and is that member |
| Json.AsString | src/prompt_manager/prompt_manager.cpp:63 | reading a string succeeds exactly on strings and gives their text; anything else is a type error |
| Json.AsInt | src/model_manager/model.cpp:41 | reading an int succeeds exactly on numbers and booleans, always within 32 bits, and leaves an in-range integer unchanged |
| Json.AsStringMap | src/model_manager/model.cpp:39 | reading a string map succeeds exactly on objects of string members, and the map read is stored back as the same object |
| Json.StringObjectRoundTrip | src/model_manager/model.cpp:39 | storing a string map and reading it back gives the map |
| Metrics.TypeIndex | src/include/flock/metrics/types.hpp:8-17 | every kind's index is below eight, and the last index belongs to `UNKNOWN` alone |
| Metrics.TypeAt | src/include/flock/metrics/types.hpp:40-42 | the kind at an index has that index |
| Metrics.TypeIndexBijective | src/include/flock/metrics/types.hpp:8-17 | the index is a bijection between the eight kinds and `0 .. 7` |
| Metrics.TypeName | src/include/flock/metrics/types.hpp:19-38 | only `UNKNOWN` prints as `unknown` |
| Metrics.TypeNameInjective | src/include/flock/metrics/types.hpp:19-38 | distinct kinds print differently |
| Metrics.DataToJson | src/include/flock/metrics/data_structures.hpp:40-57 | the object carries `model_name` and `provider` exactly when they are non-empty, and `total_tokens` is the sum of the input and output tokens |
| Metrics.WithSlot | src/include/flock/metrics/data_structures.hpp:71-73 | writing one kind's slot leaves every other slot alone |
| Metrics.ResetSlots | src/include/flock/metrics/data_structures.hpp:65-69 | after a reset every slot holds the default data |
| Metrics.IsEmptyMetricsBySlot | src/include/flock/metrics/data_structures.hpp:79-86 | a state's metrics are empty exactly when every kind's slot is |
| Metrics.Register | src/include/flock/metrics/base_manager.hpp:16-30 | the entry exists afterwards, every entry reads as before, and the orders and counters are untouched |
| Metrics.StartInvocation | src/include/flock/metrics/base_manager.hpp:33-50 | the first invocation of a state and kind takes the thread's next order for that kind; a repeat changes no order or counter; no other counter moves and no order is lost |
| Metrics.StartInvocationKeepsOrders | src/include/flock/metrics/base_manager.hpp:33-50 | registration keeps every order positive and every order a counter handed out held by some state |
| Metrics.Write | src/include/flock/metrics/base_manager.hpp:71-73 | a write sets one slot and changes nothing else |
| Metrics.SetModelInfo | src/include/flock/metrics/base_manager.hpp:53-62 | the model and the provider are each written only while empty; the counters and every other slot are unchanged |
| Metrics.SetModelInfoFirstWins | src/include/flock/metrics/base_manager.hpp:52-62 | once set, a second call changes nothing |
| Metrics.Bump | src/include/flock/metrics/base_manager.hpp:64-85 | adding to a slot's counters adds exactly the given amounts and keeps its names and every other slot |
| Metrics.UpdateTokens | src/include/flock/metrics/base_manager.hpp:65-70 | the two token counters grow by the given amounts and nothing else changes |
| Metrics.IncrementApiCalls | src/include/flock/metrics/base_manager.hpp:73-75 | the call counter grows by one and nothing else changes |
| Metrics.AddApiDuration | src/include/flock/metrics/base_manager.hpp:78-80 | the API time grows by the given amount and nothing else changes |
| Metrics.AddExecutionTime | src/include/flock/metrics/base_manager.hpp:83-85 | the execution time grows by the given amount and nothing else changes |
| Metrics.TokensAdditive | src/include/flock/metrics/base_manager.hpp:65-70 | two token updates are one update by the sums |
| Metrics.ApiDurationAdditive | src/include/flock/metrics/base_manager.hpp:78-80 | two API durations are one by their sum |
| Metrics.ExecutionTimeAdditive | src/include/flock/metrics/base_manager.hpp:83-85 | two execution times are one by their sum |
| Metrics.BumpTwice | src/include/flock/metrics/base_manager.hpp:64-85 | two additions to a slot are one addition of their sum |
| Metrics.Reset | src/include/flock/metrics/base_manager.hpp:244-248 | after a reset the metrics, orders and counters are all empty |
| MetricsManager.GetForDatabase | src/include/flock/metrics/manager.hpp:17-32 | a null database is an error; otherwise the database's manager, created empty on first use, with every other manager kept |
| MetricsManager.GetForDatabaseStable | src/include/flock/metrics/manager.hpp:17-32 | a second lookup of the same database returns the same manager and creates nothing |
| MetricsManager.GenerateUniqueId | src/include/flock/metrics/manager.hpp:35-38 | the id is the pre-incremented 64-bit counter, wrapping to null only after the last value |
| MetricsManager.UniqueIdsIncrease | src/include/flock/metrics/manager.hpp:35-38 | until the counter wraps, successive ids are non-null and strictly increasing, so no two calls share one |
| MetricsManager.MsToUs | src/include/flock/metrics/manager.hpp:80 | milliseconds become microseconds truncated toward zero |
| MetricsManager.StartInvocation | src/include/flock/metrics/manager.hpp:41-51 | with a null database or state nothing changes; otherwise the context is stored and the database's ledger starts the invocation, with every other ledger kept |
| MetricsManager.SetModelInfo | src/include/flock/metrics/manager.hpp:54-59 | without a context nothing changes; otherwise the context's slot records the model and provider as the base manager does |
| MetricsManager.UpdateTokens | src/include/flock/metrics/manager.hpp:62-67 | without a context nothing changes; otherwise the context's slot gains the tokens |
| MetricsManager.IncrementApiCalls | src/include/flock/metrics/manager.hpp:70-75 | without a context nothing changes; otherwise the context's slot counts one more call |
| MetricsManager.AddApiDuration | src/include/flock/metrics/manager.hpp:78-84 | without a context nothing changes; otherwise the context's slot gains the duration in whole microseconds |
| MetricsManager.AddExecutionTime | src/include/flock/metrics/manager.hpp:87-93 | without a context nothing changes; otherwise the context's slot gains the time in whole microseconds |
| MetricsManager.ClearContext | src/include/flock/metrics/manager.hpp:96-100 | the cleared context is unset and of unknown kind |
| MetricsManager.ClearedUpdatesNothing | src/include/flock/metrics/manager.hpp:54-100 | after the context is cleared every update leaves the managers alone |
| MetricsManager.StartedUpdatesReach | src/include/flock/metrics/manager.hpp:41-67 | after an invocation starts on non-null pointers, a token update reaches the state and kind it named |
| MetricsManager.ExecuteResetMetrics | src/metrics/metrics.cpp:40-50 | a null database is an error; otherwise its ledger is emptied and the fixed message returned |
| MetricsManager.ResetThenNothingReported | src/metrics/metrics.cpp:40-50 | after a reset no key of the database is reported |
| MetricsManager.ExecuteGetMetrics | src/metrics/metrics.cpp:12-24 | a null database is an error; otherwise the report names exactly the contributing keys, each under its kind and rank and holding its expected totals |
| MetricsManager.FirstNamedIsFirst | src/metrics/metrics.cpp:89-93 | the search finds the earliest state that counts something and names a model, and none exactly when no state does |
| MetricsManager.ChosenStep | src/metrics/metrics.cpp:89-93 | a state fills the model choice exactly when it counts something, names a model and none was chosen before |
| MetricsManager.TotalsStep | src/metrics/metrics.cpp:82-88 | one more state adds its counters to the totals |
| MetricsManager.AbsorbedStep | src/metrics/metrics.cpp:78-95 | one pass of the merge loop extends the totals and the model choice by one state |
| MetricsManager.Sweep | src/metrics/metrics.cpp:78-95 | the first merge loop registers every listed state, changes no slot, and yields the totals of their slots and the chosen model and provider |
| MetricsManager.ClearOthers | src/metrics/metrics.cpp:113-119 | every listed state but the first gets a default slot of the kind, and nothing else changes |
| MetricsManager.MergeAggregateMetrics | src/metrics/metrics.cpp:52-120 | an empty list or null database changes nothing; otherwise the first state's invocation starts, it holds the totals and chosen model, the other listed states are reset for the kind, and every other slot and database is unchanged |
| MetricsManager.MergeLedger | src/metrics/metrics.cpp:61-119 | within one ledger, the survivor holds the totals, the other listed states are reset, and nothing else changes |
| MetricsManager.MergeOutcome | src/metrics/metrics.cpp:61-119 | the register, sum, write and reset steps together give the merge's outcome against the ledger before it |
| MetricsManager.SweepReads | src/metrics/metrics.cpp:78-95 | reading a ledger with the same slots gives the same totals and the same model choice |
| MetricsReport.AbsorbEffect | src/include/flock/metrics/base_manager.hpp:129-141 | adding a slot into a merged entry changes that entry alone, creating it when absent: counters summed, first non-empty model and provider kept |
| MetricsReport.MergeKindsEffect | src/include/flock/metrics/base_manager.hpp:116-143 | the inner loop adds a state's slot of each kind except `UNKNOWN` into its (kind, order) entry exactly when the slot is non-empty |
| MetricsReport.MergeShape | src/include/flock/metrics/base_manager.hpp:110-145 | the merge has distinct keys, none of kind `UNKNOWN` |
| MetricsReport.ExpectedStep | src/include/flock/metrics/base_manager.hpp:110-145 | one more visited entry adds its slot to a key exactly when it contributes |
| MetricsReport.MergeEntries | src/include/flock/metrics/base_manager.hpp:107-145 | a key is merged exactly when some slot contributes to it, and holds the sum of the contributing counters with the first model and provider met |
| MetricsReport.Insert | src/include/flock/metrics/base_manager.hpp:160-165 | insertion adds exactly one entry, as a multiset |
| MetricsReport.InsertSorted | src/include/flock/metrics/base_manager.hpp:160-165 | inserting a new key into a sorted list keeps it sorted by kind, then order |
| MetricsReport.Sort | src/include/flock/metrics/base_manager.hpp:160-165 | the sorted entries are a permutation of the merged ones |
| MetricsReport.SortSorted | src/include/flock/metrics/base_manager.hpp:160-165 | entries with distinct keys come out sorted by kind, then registration order |
| MetricsReport.SortedEarlier | src/include/flock/metrics/base_manager.hpp:160-175 | in a sorted list the entries of a kind before a position are exactly the keys of that kind with a smaller order |
| MetricsReport.DenseNumber | src/include/flock/metrics/base_manager.hpp:167-175 | the number an entry gets is one more than the count of its kind's keys with a smaller order |
| MetricsReport.NameInjective | src/include/flock/metrics/base_manager.hpp:175 | report keys `<kind>_<number>` are unambiguous: kind and number can be read back |
| MetricsReport.LabelsDistinct | src/include/flock/metrics/base_manager.hpp:167-178 | no two entries get the same kind and number |
| MetricsReport.Emit | src/include/flock/metrics/base_manager.hpp:167-178 | the numbering loop labels every entry with its kind and the next number of its kind, and writes nothing else |
| MetricsReport.Render | src/include/flock/metrics/base_manager.hpp:175-177 | each label is written under its name as the entry's JSON, and nothing else |
| MetricsReport.GetMetrics | src/include/flock/metrics/base_manager.hpp:88-181 | every key some slot contributes to is reported under `<kind>_<rank>` with its summed counters and first model and provider, where the rank is dense among that kind's registration orders; nothing else is reported |
| MetricsReport.ResetReportsNothing | src/include/flock/metrics/base_manager.hpp:244-248 | after a reset no slot contributes to any key, so the report is empty |
| ModelDetailsLoading.ModelName | src/model_manager/model.cpp:23 | an absent `model_name` reads as empty; a present one must be a string |
| ModelDetailsLoading.UserParameters | src/model_manager/model.cpp:43-45 | text parameters are parsed, anything else is taken as it is |
| ModelDetailsLoading.DefaultSecretName | src/model_manager/model.cpp:58-61 | the default secret name starts with `__default_` |
| ModelDetailsLoading.SecretName | src/model_manager/model.cpp:58-64 | `secret_name` overrides the provider's default name |
| ModelDetailsLoading.Layered | src/model_manager/model.cpp:77-91 | a user setting wins over a stored argument, which wins over the default |
| ModelDetailsLoading.LoadModelDetails | src/model_manager/model.cpp:22-93 | a load succeeds only with a non-empty `model_name`, which it keeps; an empty one is the fixed error; the batch size is a 32-bit int |
| ModelDetailsLoading.LoadResolved | src/model_manager/model.cpp:36-48 | the resolved path keeps the model name and reads a 32-bit batch size |
| ModelDetailsLoading.LoadStored | src/model_manager/model.cpp:49-92 | the stored path keeps the model name and reads a 32-bit batch size |
| ModelDetailsLoading.ResolvedIgnoresStores | src/model_manager/model.cpp:28-48 | an object carrying all five settings loads without consulting the model table or the secret store |
| ModelDetailsLoading.MissingRowFails | src/model_manager/model.cpp:50 | on the other path a missing model row fails the load with its error |
| ModelDetailsLoading.StoredPrecedence | src/model_manager/model.cpp:68-91 | tuple format, batch size and parameters each come from the user object, else the stored arguments, else `XML`, 2048 and `{}` |
| ModelDetailsLoading.StoredIdentity | src/model_manager/model.cpp:50-66 | model and provider come from the user over the stored row; without a user secret the one stored under `secret_name` or the provider's default name is read |
| ModelDetailsLoading.DefaultSecretNameSuffix | src/model_manager/model.cpp:58-61 | after the prefix comes the provider's name, with `_llm` for Azure |
| ModelDetailsLoading.DefaultSecretNameCollision | src/model_manager/model.cpp:58-61 | two providers share a default secret name only when they are `azure` and `azure_llm` |
| ModelDetailsLoading.DetailsToJson | src/model_manager/model.cpp:159-171 | the JSON form carries all five settings, and `model_parameters` exactly when they are not empty |
| ModelDetailsLoading.LoadDetailsToJson | src/model_manager/model.cpp:22-48 | loading the JSON form of reloadable details gives them back, without any lookup |
| ModelDetailsLoading.LoadDetailsToJsonEmpty | src/model_manager/model.cpp:167-169 | empty parameters other than `{}` come back as `{}` |
| ModelDetailsLoading.NewModel | src/model_manager/model.cpp:17-20 | a model is its loaded details and the provider constructed for their provider name; a failed load fails the constructor with its error |
| ModelDetailsLoading.ResolveModelDetailsToJson | src/model_manager/model.cpp:173-182 | the resolved object is the constructed model's JSON form, with the user's `secret_name` carried through exactly when given; a failed construction fails it |
| ModelDetailsLoading.ResolveThenLoad | src/model_manager/model.cpp:173-182 | loading the resolved object gives the same details as loading the user's object, when those details are reloadable |
| ModelDetailsLoading.LoadDetailsToJsonNamed | src/model_manager/model.cpp:177-179 | a carried `secret_name` does not change what a resolved object loads to |
| ModelDetailsLoading.LoadReadsSettings | src/model_manager/model.cpp:22-48 | two resolved objects that agree on the settings keys load alike |
| ModelDetailsLoading.Copy | src/include/flock/functions/llm_function_bind_data.hpp:19-24 | the copy holds the same model object and prompt |
| ModelDetailsLoading.EqualsIsEquality | src/include/flock/functions/llm_function_bind_data.hpp:26-29 | `Equals` is exactly equality of bind data, and a copy equals its original |
| ModelDetailsLoading.EqualBindDataSameModel | src/include/flock/functions/llm_function_bind_data.hpp:15-17 | equal bind data, and a copy, create the same model |
| Providers.GetProviderType | src/include/flock/model_manager/repository.hpp:40-52 | the name selects a supported provider exactly when, lower-cased, it is `openai`, `default`, empty, `azure`, `ollama` or `anthropic`; otherwise the unsupported marker, never the count |
| Providers.GetProviderName | src/include/flock/model_manager/repository.hpp:54-67 | a supported provider has a non-empty lower-case name and anything else the empty name |
| Providers.LowerUpper | src/include/flock/model_manager/repository.hpp:41 | lower-casing after upper-casing is lower-casing |
| Providers.LowerLower | src/include/flock/model_manager/repository.hpp:41 | lower-casing is idempotent |
| Providers.ProviderTypeIgnoresCase | src/include/flock/model_manager/repository.hpp:40-52 | the letter case of a provider name does not matter |
| Providers.ProviderTypeOfName | src/include/flock/model_manager/repository.hpp:40-67 | every supported provider's canonical name maps back to it |
| Providers.ProviderNameOfType | src/include/flock/model_manager/repository.hpp:40-67 | a supported name, in any case, other than the two aliases of OpenAI, is its provider's canonical name |
| Providers.ConstructProvider | src/model_manager/model.cpp:129-155 | the test factory wins, then the shared test provider, then the adapter of the named provider; the construction fails, with the provider's name in the message, exactly when no hook is set and the name is unknown |
| ModelParser.CollectArgs | src/custom_parser/query/model_parser.cpp:91-106 | the arguments kept carry only the three known keys, with a 32-bit integer batch size |
| ModelParser.CollectArgsOk | src/custom_parser/query/model_parser.cpp:91-106 | the loop succeeds exactly when every member has a known key and, for `batch_size`, an integer value |
| ModelParser.CollectArgsError | src/custom_parser/query/model_parser.cpp:93-105 | a failure reports the first rejected member, with the unknown-key or integer message |
| ModelParser.CollectArgsKeys | src/custom_parser/query/model_parser.cpp:91-106 | a success stores exactly the keys of the members |
| ModelParser.CollectArgsValues | src/custom_parser/query/model_parser.cpp:95-102 | a success stores under each key the last member with that key, the batch size narrowed to 32 bits |
| ModelParser.ReadArgs | src/custom_parser/query/model_parser.cpp:86-109 | arguments read are well formed, and every failure carries the `Failed to parse model_args JSON: ` prefix |
| ModelParser.Parse | src/custom_parser/query/model_parser.cpp:11-31 | every parsed statement is well formed: non-empty names, a known catalog, checked arguments; a first token that is not a keyword is the fixed error |
| ModelParser.ParseCreate | src/custom_parser/query/model_parser.cpp:33-131 | a parsed create is well formed, and is global exactly when `GLOBAL` follows `CREATE` |
| ModelParser.ParseSpec | src/custom_parser/query/model_parser.cpp:55-117 | the model name, model and provider are the three literals at their positions, none empty |
| ModelParser.ParseArgsTail | src/custom_parser/query/model_parser.cpp:83-117 | after the provider, no separator means no arguments, and a separator means the arguments read from the next token's text |
| ModelParser.ParseDelete | src/custom_parser/query/model_parser.cpp:133-154 | a parsed delete names a non-empty model |
| ModelParser.ParseUpdate | src/custom_parser/query/model_parser.cpp:156-271 | a string literal after `MODEL` selects the scope change, anything else the definition update, and both are well formed |
| ModelParser.ParseUpdateScope | src/custom_parser/query/model_parser.cpp:164-188 | a parsed scope change names one of the two catalogs |
| ModelParser.ParseGet | src/custom_parser/query/model_parser.cpp:273-299 | the statement lists all models exactly when `MODELS` is followed by a terminator; otherwise it names a non-empty model |
| ModelParser.ParsePrint | src/custom_parser/query/model_parser.cpp:11-299 | parsing a printed well-formed statement, followed by anything that may end a statement, gives the statement back |
| ModelParser.SpecPrint | src/custom_parser/query/model_parser.cpp:55-117 | the definition part reads back from its printed tokens |
| ModelParser.CreatePrint | src/custom_parser/query/model_parser.cpp:33-131 | a printed create parses back to itself |
| ModelParser.UpdatePrint | src/custom_parser/query/model_parser.cpp:156-271 | a printed update of either form parses back to itself |
| ModelParser.GetPrint | src/custom_parser/query/model_parser.cpp:273-299 | a printed get parses back to itself |
| PromptParser.Parse | src/custom_parser/query/prompt_parser.cpp:12-32 | every parsed statement is well formed, non-empty names and texts and a known catalog, and begins with a keyword |
| PromptParser.ParseCreate | src/custom_parser/query/prompt_parser.cpp:34-88 | a parsed create is well formed, and is global exactly when `GLOBAL` follows `CREATE` |
| PromptParser.ParseDelete | src/custom_parser/query/prompt_parser.cpp:90-111 | a parsed delete names a non-empty prompt |
| PromptParser.ParseUpdate | src/custom_parser/query/prompt_parser.cpp:113-184 | a string literal after `PROMPT` selects the scope change, anything else the text update, and both are well formed |
| PromptParser.ParseUpdateScope | src/custom_parser/query/prompt_parser.cpp:121-145 | a parsed scope change names one of the two catalogs |
| PromptParser.ParseUpdateText | src/custom_parser/query/prompt_parser.cpp:146-183 | a parsed text update has a non-empty name and text |
| PromptParser.ParseGet | src/custom_parser/query/prompt_parser.cpp:186-212 | the statement lists all prompts exactly when `PROMPTS` is followed by a terminator; otherwise it names a non-empty prompt |
| PromptParser.ParsePrint | src/custom_parser/query/prompt_parser.cpp:12-212 | parsing a printed well-formed statement, followed by anything that may end a statement, gives the statement back |
| PromptParser.CreatePrint | src/custom_parser/query/prompt_parser.cpp:34-88 | a printed create parses back to itself |
| PromptParser.UpdatePrint | src/custom_parser/query/prompt_parser.cpp:113-184 | a printed update of either form parses back to itself |
| PromptParser.GetPrint | src/custom_parser/query/prompt_parser.cpp:186-212 | a printed get parses back to itself |
| QueryParser.Escape | src/custom_parser/query_parser.cpp:19-27 | escaping never shortens a value's text |
| QueryParser.EscapeAppend | src/custom_parser/query_parser.cpp:21-27 | the quote doubling works character by character, so it distributes over concatenation |
| QueryParser.UnescapeEscape | src/custom_parser/query_parser.cpp:21-27 | un-doubling the quotes recovers the original text, so the doubling loses nothing |
| QueryParser.ReadSqlLiteralBack | src/custom_parser/query_parser.cpp:13-29 | every cell, NULL or not, is recovered from its SQL text, and NULL stays apart from the text `NULL` |
| QueryParser.FormatValueForSql | src/custom_parser/query_parser.cpp:13-29 | the produced literal is the quoted, quote-doubled text of the value, or `NULL` |
| QueryParser.FormatResultsAsValues | src/custom_parser/query_parser.cpp:32-81 | the fixed empty query comes back exactly when the result is missing or has no rows; otherwise one tuple per row and one quoted name per column, in order |
| QueryParser.Dispatch | src/custom_parser/query_parser.cpp:113-129 | scope keywords are skipped and the first other token chooses the model parser, the prompt parser or an unknown-keyword error |
| QueryParser.ParseQuery | src/custom_parser/query_parser.cpp:100-111 | a statement that does not open with CREATE, DELETE, UPDATE or GET is refused with that token; otherwise dispatch starts at the second token |
| QueryParser.FrontDoor | src/custom_parser/query_parser.cpp:100-129 | the front door hands the whole token sequence to the parser named by the first token after the command and any scope keywords |
| QueryParser.RouteToModel | src/custom_parser/query_parser.cpp:116-119 | a MODEL word routes to the model parser and its statement comes back unchanged |
| QueryParser.RouteToPrompt | src/custom_parser/query_parser.cpp:120-123 | a PROMPT word routes to the prompt parser and its statement comes back unchanged |
| QueryParser.QueryModelPrint | src/custom_parser/query_parser.cpp:100-129 | a printed well-formed model statement parses back to itself through the front door |
| QueryParser.QueryPromptPrint | src/custom_parser/query_parser.cpp:100-129 | a printed well-formed prompt statement parses back to itself through the front door |
| ReduceEngine.LastSummary | src/functions/aggregate/llm_reduce/implementation.cpp:30-74 | the summary after the calls is the first item of the last reply with items, and the empty string when no call succeeded |
| ReduceEngine.TrailingOverflows | src/functions/aggregate/llm_reduce/implementation.cpp:59-69 | the overflows since the last success number at most the calls, and are zero exactly when there was no call or the last one did not overflow |
| ReduceEngine.ReduceStep | src/functions/aggregate/llm_reduce/implementation.cpp:42-69 | one pass keeps the calls a valid schedule and faithful to the provider; afterwards the batch array is emptied on success or kept, stale columns included, on overflow, and the summary moves only on success |
| ReduceEngine.Round | src/functions/aggregate/llm_reduce/implementation.cpp:42-71 | a round either stops with the loop's outcome or continues from a later start or the same start with a smaller batch, the loop's state still described by the calls so far |
| ReduceEngine.ReduceLoop | src/functions/aggregate/llm_reduce/implementation.cpp:30-74 | a non-positive batch size fails before any call; otherwise the calls follow the retry schedule over all rows, each request is built from the rows and the carried summary, and the result is that of the last call |
| ReduceEngine.NoStaleColumnsWithoutOverflow | src/functions/aggregate/llm_reduce/implementation.cpp:42-62 | without an overflow every request holds exactly its rows of every column, nothing left over from an earlier attempt |
| ReduceEngine.SummaryChains | src/functions/aggregate/llm_reduce/implementation.cpp:60-62 | every call after a success, up to the next success, carries the summary that success returned |
| ReduceEngine.SummaryAfterSuccess | src/functions/aggregate/llm_reduce/implementation.cpp:59-69 | failed calls after a success leave the summary that success returned |
| ReduceEngine.FinalizeOne | src/functions/aggregate/llm_reduce/implementation.cpp:93-126 | a null or empty state gives NULL without a call; otherwise the reduction's string result, or the JSON text of any other value, fills the slot and its error aborts |
| ReduceEngine.FinalizeNext | src/functions/aggregate/llm_reduce/implementation.cpp:93-126 | one pass finalizes the next state, records it as processed when it held rows, and stops with its error |
| ReduceEngine.FinalizeResults | src/functions/aggregate/llm_reduce/implementation.cpp:76-133 | every state is reduced in turn with its own provider; on success each slot is NULL exactly when its state held no rows, and the first error aborts; the processed states are those that held rows |
| RerankEngine.InitialBatchSize | src/functions/aggregate/llm_rerank/implementation.cpp:112-115 | the default batch size 2048 means the row count when smaller; any other size is taken as it is |
| RerankEngine.Rank | src/functions/aggregate/llm_rerank/implementation.cpp:42-83 | an accepted ranking has one id per item, each the item's accepted id, with no id text twice |
| RerankEngine.RankAccepts | src/functions/aggregate/llm_rerank/implementation.cpp:42-83 | conversely items all accepted and without a repeat are accepted in their order |
| RerankEngine.Ranking | src/functions/aggregate/llm_rerank/implementation.cpp:18-84 | the provider's items are accepted only when each is an integer or integer text among the window's row ids and none repeats |
| RerankEngine.RankingAccepts | src/functions/aggregate/llm_rerank/implementation.cpp:45-83 | conversely items that are all valid ids without a repeat are accepted |
| RerankEngine.DistinctTextsBound | src/functions/aggregate/llm_rerank/implementation.cpp:68-79 | an accepted ranking never names more rows than there are valid ids |
| RerankEngine.Window | src/functions/aggregate/llm_rerank/implementation.cpp:121-147 | the window is the carry followed by the next new rows, non-empty and no larger than the batch size, with every column's metadata |
| RerankEngine.Pick | src/functions/aggregate/llm_rerank/implementation.cpp:183-189 | picking keeps one column per column, each holding the window's rows in ranked order |
| RerankEngine.Push | src/functions/aggregate/llm_rerank/implementation.cpp:183-224 | pushing appends each column's rows and keeps its metadata |
| RerankEngine.Ranked | src/functions/aggregate/llm_rerank/implementation.cpp:165-225 | after a ranking the loop moves past the window's new rows, the worse half joining the output and the better half carried, or flushed once the input is used up |
| RerankEngine.RankingBound | src/functions/aggregate/llm_rerank/implementation.cpp:165-182 | an accepted reply names no more rows than the window holds |
| RerankEngine.Advance | src/functions/aggregate/llm_rerank/implementation.cpp:121-234 | a round either continues from a later start or the same start with a smaller batch size, or ends with an error (a failed call, an invalid ranking, or a batch size shrunk to zero) |
| RerankEngine.Replay | src/functions/aggregate/llm_rerank/implementation.cpp:121-234 | the loop state after any sequence of calls is valid, and a finished loop has failed |
| RerankEngine.Call | src/functions/aggregate/llm_rerank/implementation.cpp:159-165 | each call asks for one integer per window row |
| RerankEngine.ReplayStep | src/functions/aggregate/llm_rerank/implementation.cpp:121-234 | the loop replayed over one more call continues from the state that call's reply leads to |
| RerankEngine.SlidingWindow | src/functions/aggregate/llm_rerank/implementation.cpp:86-237 | at most one row comes back as it is without a call; a non-positive batch size fails; otherwise the calls are those the loop makes and the result is its outcome, made of input rows with none twice |
| RerankEngine.WindowRows | src/functions/aggregate/llm_rerank/implementation.cpp:121-147 | the window is the input at the carried rows followed by the new rows |
| RerankEngine.RankedPicks | src/functions/aggregate/llm_rerank/implementation.cpp:181-225 | the output and the carry after a ranking are input rows, in the order the ranking names them |
| RerankEngine.RankedOrigins | src/functions/aggregate/llm_rerank/implementation.cpp:181-225 | after a ranking without repeats the output and the carry hold input rows, none twice, all before the new start |
| RerankEngine.RankedCovers | src/functions/aggregate/llm_rerank/implementation.cpp:181-225 | a ranking that names every window row keeps every row before the new start in the output or the carry |
| RerankEngine.NumberedRanking | src/functions/aggregate/llm_rerank/implementation.cpp:159-165 | against the ids "0" to "w-1" an accepted ranking names distinct rows below the window size |
| RerankEngine.WindowBound | src/functions/aggregate/llm_rerank/implementation.cpp:121-147 | a window never holds more rows than the input |
| RerankEngine.AdvanceOrigins | src/functions/aggregate/llm_rerank/implementation.cpp:121-234 | each round keeps output and carry made of distinct input rows, and loses no row when the ranking named every window row and the round did not drop the carry |
| RerankEngine.Provenance | src/functions/aggregate/llm_rerank/implementation.cpp:121-234 | across the whole loop the output and the carry are distinct input rows, and no row is lost when every ranking is complete and no carry is dropped |
| RerankEngine.Conservation | src/functions/aggregate/llm_rerank/implementation.cpp:86-237 | a successful result is a selection of input rows without repeats, and a permutation of all of them when every ranking is complete and no carry is dropped |
| RerankEngine.FaithfulAgree | src/functions/aggregate/llm_rerank/implementation.cpp:121-234 | the loop's calls are determined by the provider: two traces of the same length agree |
| RerankEngine.StoppedUnique | src/functions/aggregate/llm_rerank/implementation.cpp:121-234 | the loop ends after a unique sequence of calls |
| RerankEngine.CarryExample | src/functions/aggregate/llm_rerank/implementation.cpp:149-233 | over rows "a", "b", "c" with batch size 2 and a provider whose second call overflows, the three calls the loop makes drop row "b" when the carry is cleared and keep it when it is not |
| RerankEngine.OverflowLosesRow | src/functions/aggregate/llm_rerank/implementation.cpp:149-233 | as written, that run returns only "a" and "c": the carried row is lost |
| RerankEngine.KeptCarryKeepsRow | src/functions/aggregate/llm_rerank/implementation.cpp:121-234 | keeping the carry across the overflow, the same run returns all three rows |
| RerankFinalize.FinalizeOne | src/functions/aggregate/llm_rerank/implementation.cpp:255-290 | a null or empty state gives NULL without a call; otherwise the sliding window's ranked columns, as JSON text, fill the slot, and its error aborts |
| RerankFinalize.FinalizeNext | src/functions/aggregate/llm_rerank/implementation.cpp:255-290 | one pass finalizes the next state, records it as processed when it held rows, and stops with its error |
| RerankFinalize.Finalize | src/functions/aggregate/llm_rerank/implementation.cpp:239-297 | every state is ranked in turn with its own provider; on success each slot is NULL exactly when its state held no rows, and the first error aborts; the processed states are those that held rows |
| RowIds.Ids | src/functions/aggregate/llm_rerank/implementation.cpp:160-163 | the id column numbers the rows "0", "1", … in order |
| RowIds.IdColumnFrom | src/functions/aggregate/llm_first_or_last/implementation.cpp:24-36 | the id column is the first column named `flock_row_id`, and none is found exactly when no column has that name |
| RowIds.WithIds | src/functions/aggregate/llm_rerank/implementation.cpp:159-163 | appending the id column keeps every column and the row count, and adds one id per row |
| RowIds.ItemId | src/functions/aggregate/llm_first_or_last/implementation.cpp:38-62 | an accepted item is an integer, narrowed to 32 bits and printed, or a string that `stoi` reads, and its text is among the valid ids; any other item is refused with its JSON text, and an unreadable string with the invalid-id message |
| RowIds.ItemIdAcceptsListedRow | src/functions/aggregate/llm_first_or_last/implementation.cpp:38-64 | conversely naming a listed row, as an integer or as its printed id, is accepted as that row |
| RowIds.ItemIdOfNumbered | src/functions/aggregate/llm_rerank/implementation.cpp:159-165 | against the numbered id column an accepted id is a row of the window, printed canonically |
| RowIds.IdTexts | src/functions/aggregate/llm_rerank/implementation.cpp:160-163 | the valid ids of a numbered window are exactly the printed numbers below its size |
| RowIds.ValidIdsOfWithIds | src/functions/aggregate/llm_rerank/implementation.cpp:27-40 | with no column of its own named `flock_row_id`, the valid ids of a window with the id column appended are "0" to "n-1" |
| RowIds.ValidIdsBound | src/functions/aggregate/llm_rerank/implementation.cpp:27-40 | a window offers at most as many valid ids as it has rows |
| Text.IntToString | src/functions/aggregate/llm_rerank/implementation.cpp:52 | the printed integer is non-empty and starts with a minus sign exactly when it is negative |
| Text.Stoi | src/functions/aggregate/llm_rerank/implementation.cpp:56 | a parsed value lies in the 32-bit range |
| Text.StoiOfIntToString | src/functions/aggregate/llm_rerank/implementation.cpp:52-56 | `stoi` reads back what `to_string` printed for every 32-bit integer |
| Text.Wrap32 | src/functions/aggregate/llm_rerank/implementation.cpp:51 | the narrowing to `int` lands in the 32-bit range and leaves values already in range unchanged |
| Text.FindIsFirst | src/prompt_manager/prompt_manager.cpp:26-38 | `find` answers the first occurrence at or after the start, and nothing exactly when there is none |
| FunctionBinding.DescribesUnique | src/functions/aggregate/aggregate.cpp:30-47 | the struct's field names determine what is extracted: the first `prompt` or `prompt_name` field wins and later ones are ignored |
| FunctionBinding.ExtractPromptStructInfo | src/functions/aggregate/aggregate.cpp:30-47 | the extracted information records whether `context_columns` is a field, and the index and name of the first prompt field |
| FunctionBinding.ValidateArguments | src/functions/scalar/scalar.cpp:188-210 | binding succeeds exactly when there are two struct arguments and, where required, the prompt struct has `context_columns`; each failure gives the first check's error, in the order count, model type, prompt type, context field |
| FunctionBinding.PromptFromChildrenKeys | src/functions/aggregate/aggregate.cpp:76-100 | the prompt object built from a struct expression has exactly the foldable, evaluable children other than `context_columns` as members, and is null when there are none |
| FunctionBinding.PromptFromChildrenValues | src/functions/aggregate/aggregate.cpp:83-99 | each member holds the value of the last child of that name, strings as themselves and anything else cast to JSON |
| FunctionBinding.BuiltPromptsAgree | src/functions/scalar/scalar.cpp:148-186 | for a prompt built from a struct expression the scalar erase of `context_columns` changes nothing, so scalar and aggregate binding read the same prompt details |
| FunctionBinding.ConstantContextColumns | src/functions/scalar/scalar.cpp:180-184 | a constant prompt struct carrying `context_columns` binds as its literal prompt in a scalar function, while an aggregate rejects it for having two keys |
| FunctionBinding.CastInputsToJson | src/functions/aggregate/aggregate.cpp:126-138 | the cast rows split into the object without `context_columns` and their value, together giving back the cast object; their absence is an error, and a cast error passes through |
| UrlHandler.LastIndex | src/include/flock/model_manager/providers/handlers/url_handler.hpp:19-20 | the position found holds the character and none follows it; none is found exactly when the character does not occur |
| UrlHandler.FirstIndexFrom | src/include/flock/model_manager/providers/handlers/url_handler.hpp:22 | the position found is the first occurrence at or after the start, or the end when there is none |
| UrlHandler.ExtractFileExtension | src/include/flock/model_manager/providers/handlers/url_handler.hpp:18-30 | the extension is empty or a dot followed by characters other than dot, slash and question mark |
| UrlHandler.ExtensionOfFileName | src/include/flock/model_manager/providers/handlers/url_handler.hpp:18-30 | a file name ending in a plain suffix, optionally followed by a query string, has that suffix as its extension |
| UrlHandler.NoExtensionAfterSlash | src/include/flock/model_manager/providers/handlers/url_handler.hpp:19-29 | a URL whose last slash follows its last dot has no extension |
| UrlHandler.UrlSchemes | src/include/flock/model_manager/providers/handlers/url_handler.hpp:58-62 | paths starting `http://` or `https://` are URLs; local paths and other schemes are not |
| UrlHandler.ResolveFilePath | src/include/flock/model_manager/providers/handlers/url_handler.hpp:123-145 | resolution succeeds exactly when the download (for a URL) succeeded and the file is valid; the errors name the original argument; a downloaded file is removed exactly when it proves invalid |
| UrlHandler.ReadFileToBase64 | src/include/flock/model_manager/providers/handlers/url_handler.hpp:149-195 | the result is empty exactly when the file cannot be read or is empty; otherwise it decodes back to the file's bytes |
| UrlHandler.ResolveFileToBase64 | src/include/flock/model_manager/providers/handlers/url_handler.hpp:208-246 | a downloaded file is removed on every path once it exists; a success carries the file's non-empty Base64 text; a resolution error passes through and an unreadable file fails with its own message |
| UrlHandler.LetterValue | src/include/flock/model_manager/providers/handlers/url_handler.hpp:175-191 | only padding is written as `=`, every digit reads back as its value, and every character written passes `is_base64` |
| UrlHandler.Sextets | src/include/flock/model_manager/providers/handlers/url_handler.hpp:181-191 | a group always yields four positions, the last two padded for a missing second and third byte |
| UrlHandler.UnquadQuad | src/include/flock/model_manager/providers/handlers/url_handler.hpp:181-191 | each group of one to three bytes decodes back from its four characters |
| UrlHandler.TripleDigits | src/include/flock/model_manager/providers/handlers/url_handler.hpp:186-191 | shifting and masking the 24-bit group gives the four 6-bit values section 4 of RFC 4648 assigns |
| UrlHandler.DecodeEncode | src/include/flock/model_manager/providers/handlers/url_handler.hpp:181-194 | decoding undoes the encoding, for every byte string |
| UrlHandler.EncodedLength | src/include/flock/model_manager/providers/handlers/url_handler.hpp:179-194 | the text has four characters per group of three bytes, a started group counting whole |
| UrlHandler.EncodedChars | src/model_manager/model.cpp:11-15 | every character of the text is a Base64 character, so a non-empty result passes `is_base64` |
| UrlHandler.Padding | src/include/flock/model_manager/providers/handlers/url_handler.hpp:190-191 | the text ends in as many `=` as bytes the last group lacks |
| UrlHandler.EncodeLoop | src/include/flock/model_manager/providers/handlers/url_handler.hpp:181-194 | the loop's text is the Base64 encoding of the buffer |
| UrlHandler.LoopQuad | src/include/flock/model_manager/providers/handlers/url_handler.hpp:182-191 | one pass writes the four characters of the group at its position |
| PromptRender.RequestedVersion | src/prompt_manager/prompt_manager.cpp:195-198 | no version is requested exactly when the key is absent; a requested version is the `stoi` reading of the given text |
| PromptRender.CreatePromptDetails | src/prompt_manager/prompt_manager.cpp:181-243 | without `prompt_name` the details succeed exactly when `prompt` is the only key and a non-empty string, and carry it with no name and version -1; with `prompt_name` a success is the store's prompt and version for that name and requested version; without either key the single-key message is the error; no error message is empty |
| PromptRender.NamedPromptKeys | src/prompt_manager/prompt_manager.cpp:185-190 | a named prompt takes no key besides `prompt_name` and `version` |
| PromptRender.TranscriptionName | src/prompt_manager/prompt_manager.cpp:266-272 | the transcription column is called `transcription` exactly when the audio column has no or an empty name, otherwise `transcription_of_` followed by that name |
| PromptRender.TranscribeAudioColumn | src/prompt_manager/prompt_manager.cpp:245-276 | a transcription fails exactly when the model name is not a string or the transcriber fails; otherwise the new column holds only its name and the transcriptions |
| PromptRender.GetTemplate | src/include/flock/prompt_manager/prompt_manager.hpp:25-33 | the template is the meta prompt with every instructions marker replaced and then every response-format marker replaced |
| PromptRender.PartitionSorts | src/include/flock/prompt_manager/prompt_manager.hpp:59-76 | partitioning keeps every column except audio columns without a transcription model; the media hold only images and the tuples no image or audio column |
| PromptRender.PartitionAppend | src/include/flock/prompt_manager/prompt_manager.hpp:59-76 | each kind of column keeps its input order: partitioning a concatenation concatenates the partitions |
| PromptRender.PartitionPrefix | src/include/flock/prompt_manager/prompt_manager.hpp:59-76 | a transcription error in a prefix of the columns is the error of the whole |
| PromptRender.MediaJson | src/include/flock/prompt_manager/prompt_manager.hpp:78-81 | the media object has exactly the keys `image` and `audio`, the images as given and audio always empty |
| PromptRender.Render | src/include/flock/prompt_manager/prompt_manager.hpp:53-90 | the user prompt always fills its marker; the tuple block fills the tuple marker only when some column is tabular, so an invalid tuple format fails exactly when there is a tabular column; transcription errors pass through |
| PromptText.Marker | src/prompt_manager/prompt_manager.cpp:4-18 | a section outside the enumeration has the empty marker, and every other section a `{{…}}` marker |
| PromptText.MarkersDistinct | src/prompt_manager/prompt_manager.cpp:4-18 | the four markers are pairwise distinct |
| PromptText.FindShifted | src/prompt_manager/prompt_manager.cpp:30-34 | searching after a prefix finds what searching the rest finds, shifted by the prefix |
| PromptText.ReplaceSection | src/prompt_manager/prompt_manager.cpp:26-38 | with a non-empty target every occurrence in the original template is replaced and inserted content is never rescanned; an empty target leaves the template as it is |
| PromptText.ScanReplaces | src/prompt_manager/prompt_manager.cpp:30-35 | the loop, started after the text already filled, replaces every occurrence in the rest of the original text and nothing it inserted |
| PromptText.ScanUnfold | src/prompt_manager/prompt_manager.cpp:32-35 | one pass splices the content over the occurrence and searches again after the inserted content |
| PromptText.FillSection | src/prompt_manager/prompt_manager.cpp:20-24 | filling a section replaces every occurrence of its marker; a section outside the enumeration leaves the template as it is |
| PromptText.SearchPass | src/prompt_manager/prompt_manager.cpp:33-34 | one pass changes the text's length by the content's length less the target's |
| PromptText.EmptyTargetNeverStops | src/prompt_manager/prompt_manager.cpp:30-35 | as written, the loop never ends on an empty target: after any number of passes the search has found it again |
| PromptText.EmptyTargetMakesNoProgress | src/prompt_manager/prompt_manager.cpp:30-35 | with an empty content as well, a pass changes nothing: the loop spins on the same text and position |
| PromptText.ReplaceAbsent | src/prompt_manager/prompt_manager.cpp:30-37 | a template without the target comes back unchanged |
| PromptText.ReplaceAllBySelf | src/prompt_manager/prompt_manager.cpp:26-38 | filling a marker with itself leaves a template unchanged |
| PromptText.ReplaceWhole | src/prompt_manager/prompt_manager.cpp:26-38 | a template that is exactly the target becomes exactly the content, even when the content contains the target |
| PromptText.ReplaceUnique | src/prompt_manager/prompt_manager.cpp:26-38 | a target occurring exactly once is replaced by the content, whatever the content holds |
| PromptTuples.UnnamedLabelsDistinct | src/prompt_manager/prompt_manager.cpp:59-66 | two unnamed columns never get the same `COLUMN n` label |
| PromptTuples.UnnamedDense | src/prompt_manager/prompt_manager.cpp:59-66 | the unnamed columns are numbered from 1 without gaps |
| PromptTuples.ConstructHeaderXml | src/prompt_manager/prompt_manager.cpp:54-71 | the XML header lists one `<column>` element per column, holding its name or its `COLUMN n` label in order |
| PromptTuples.RuleWidth | src/prompt_manager/prompt_manager.cpp:79-96 | the dash run under a column is as long as its label, seven characters shorter than the top-row text `COLUMN_<name>` of a named column |
| PromptTuples.ConstructHeaderMarkdown | src/prompt_manager/prompt_manager.cpp:73-99 | the Markdown header is the top row of `COLUMN_<name>` or `COLUMN n` cells followed by one dash run per column |
| PromptTuples.MarkdownTopPass | src/prompt_manager/prompt_manager.cpp:77-86 | the first pass writes one top-row cell per column |
| PromptTuples.MarkdownRulePass | src/prompt_manager/prompt_manager.cpp:86-97 | the second pass writes one dash run per column, as wide as its label |
| PromptTuples.ConstructTuplesXml | src/prompt_manager/prompt_manager.cpp:101-124 | the XML body has one `<row>` per row of the first column, each cell the string as it is, null as empty, anything else as JSON text |
| PromptTuples.ConstructTuplesMarkdown | src/prompt_manager/prompt_manager.cpp:126-140 | the Markdown body has one line per row of the first column, each cell the JSON text of the value |
| PromptTuples.XmlRowIsolated | src/prompt_manager/prompt_manager.cpp:107-122 | each XML row is rendered from that row alone |
| PromptTuples.MarkdownRowIsolated | src/prompt_manager/prompt_manager.cpp:132-138 | each Markdown row is rendered from that row alone |
| PromptTuples.JsonFieldsHasLabels | src/prompt_manager/prompt_manager.cpp:142-153 | every column's label is a key of the JSON object |
| PromptTuples.JsonFieldsOnlyLabels | src/prompt_manager/prompt_manager.cpp:142-153 | every key of the JSON object is some column's label |
| PromptTuples.JsonFieldsLastWins | src/prompt_manager/prompt_manager.cpp:142-153 | a key holds the data of the last column with that label |
| PromptTuples.NumTuples | src/prompt_manager/prompt_manager.cpp:159-161 | the count line starts with its fixed prefix and ends with a blank line |
| PromptTuples.NumTuplesReadBack | src/prompt_manager/prompt_manager.cpp:159-161 | the count written in the line reads back as the number of tuples |
| PromptTuples.ConstructInputTuples | src/prompt_manager/prompt_manager.cpp:163-179 | an unknown tuple format fails with its message, and that is the only failure; otherwise the block is the count line, the format's header and the format's body |
| Columns.Empties | src/functions/aggregate/llm_reduce/implementation.cpp:43-44 | a run of fresh columns has the requested number of columns, all empty |
| Columns.At | src/prompt_manager/prompt_manager.cpp:111 | an index inside the data reads that element and any other reads null |
| Columns.SliceData | src/functions/aggregate/llm_reduce/implementation.cpp:48-50 | the rows copied are exactly those of the window that exist, in order |
| Columns.Range | src/functions/aggregate/llm_rerank/implementation.cpp:140-142 | the rows from start to end are copied in order, missing ones read as null |
| Columns.Slice | src/functions/aggregate/llm_reduce/implementation.cpp:43-55 | cutting keeps every column and its metadata, holding only the window's rows |
| Columns.CutToFirst | src/functions/aggregate/llm_rerank/implementation.cpp:90-106 | every column keeps its metadata and at most its first row |
| Columns.NameOf | src/prompt_manager/prompt_manager.cpp:62 | a column has a name exactly when its `name` is a string |
| Columns.Overlay | src/functions/aggregate/llm_reduce/implementation.cpp:43-55 | the copy keeps positions past the source, and every position it touches gets the source's metadata over its own |
| Columns.Pad | src/functions/aggregate/llm_rerank/implementation.cpp:131-134 | indexing past the end of a JSON array creates empty columns and keeps the existing ones |
| Columns.BatchToJson | src/include/flock/prompt_manager/prompt_manager.hpp:78-80 | the JSON array has one object per column, its metadata plus the `data` array |

## Left out

- Network, clocks, threads, curl and the WASM transport: the provider is the `Oracle` parameter of the engines and the `Wire` parameter of `ProviderHandler`. The thread and the metrics context are explicit arguments of `MetricsManager`. Elapsed times are passed in as numbers.
- `Batching.Request` records the columns, output count, output type and summary that `Render` receives, not the rendered prompt text. `PromptRender.Render` models the rendering separately.
- `Metrics.Counts` keeps the `int64_t` token counters and the `size_t` call counters as unbounded integers, because overflowing them would need more than 2^63 tokens or calls. Durations are integer microseconds, not `double` milliseconds; the report divides by 1000 as a `real`.
- Integer narrowing (`Text.Wrap32`) is modelled only where a JSON number becomes an `int` and its value reaches the result: `Json.AsInt`, `RowIds.ItemId`, and the `batch_size` argument of `ModelParser`. The `static_cast<int>` of row and batch counts is taken as exact, because a group of more than 2^31 rows cannot be materialised as one JSON array.
- `PromptTuples.MarkdownRulePass`: the dash run under a column is as long as its label in characters. `prompt_manager.cpp:95` uses `std::string::length()`, which counts UTF-8 bytes, so a label with non-ASCII characters gets a longer run in the source.
- `PromptTuples.ConstructInputTuples`: a column shorter than the first column is read as null past its end (`Columns.At`). At `prompt_manager.cpp:111` and `prompt_manager.cpp:135` the source indexes a `const` JSON array out of range, which is undefined behaviour, so the model gives one plausible outcome.
- `ScalarEngine.Fit`: when the batch has more columns than the reply has items, the source's `erase` starts past the end, which is undefined. The model keeps the reply whole.
- `FirstLastEngine.ChampionNeverReselected` holds for the first call and for every call after a successful one. It is not stated for the retry after an overflow, because there the source's stale batch still lists the champion's id: `FirstLastEngine.OverflowReadmitsChampion` and `FirstLastEngine.RetryKeepsLargerWindow` show it being offered again.
- `RerankFinalize.Finalize` requires every accumulated state to be rectangular (all columns the same length). The accumulator builds states that way; the sliding window reads every column at the first column's rows.
- The transcription request checks in `ExecuteBatch` (`base_handler.hpp:127-142`, a missing `file_path` or `model`) are not modelled. They build curl requests, and the engines never queue a transcription without both fields.
- `Json`: the `type_error.302` messages of nlohmann's `get<>` are kept in a shortened form. Only the fact that an error is raised, and which accessor raised it, is modelled.
- `json::dump`, `dump(4)`, `stringToTupleFormat`, `INSTRUCTIONS::Get` and `RESPONSE_FORMAT::Get` are not shown in the source, so they are function parameters (`Serializer`, `FormatParser`, the template strings). SQL values of struct and list type are rendered by the `show` parameter of `InputParser`.
- Typed SQL NULLs and DuckDB vector layouts: a row of the prompt struct is a list of named `SqlValue`s, and NULL is one value for every type.
- `InputParser`: a malformed `context_columns` entry is folded into the one error the source raises for it, rather than each nlohmann exception text.
- `ScalarFunctions`: writes past `count` into the DuckDB result vector are not modelled, because the result vector is a sequence of exactly `count` slots.
- `MetricsManager`: `SetModelInfo` and `AddExecutionTime` take the model name and the elapsed time as arguments; the clock reads around them are left out.
- `FunctionBinding.ValidateArguments` reproduces the error kinds and their order, but only the prefix of DuckDB's binder messages.
- `Embedding`: embedding vectors hold JSON numbers; the `double` arithmetic of the providers is not modelled.
- `UrlHandler`: `GenerateTempFilename`'s random name, the curl download and the file system are the `Files` parameter (`download`, `valid`, `read`). The encoding table is the `Digit` function rather than a character array.
- `MetricsReport`: `GetDebugMetrics` (`base_manager.hpp:184-241`) is not modelled. It is a diagnostic dump of the same ledger that `GetMetrics` reports.
- `ToSQL` of `ModelParser` and `PromptParser`, and `ExecuteGetQuery`/`ExecuteSetQuery` of the query parser, build storage queries and run them against the database. They are left out. `FormatResultsAsValues` and `FormatValueForSQL`, which shape their output, are modelled.
- `ModelDetailsLoading`: `GetQueriedModel`'s two table lookups are the `ModelTable` parameter, and the secret manager is the `SecretStore` parameter.
- Provider adapters (OpenAI, Azure, Ollama, Anthropic) shape JSON requests and responses. They are represented by the `Response` values of the `Wire`; the `check` field records whether the adapter's check accepted, rejected or flagged the overflow.
- Registration boilerplate and the tokenizer body: the parsers consume a token sequence.

## Findings

| source | as written | input that shows it | evidently intended | confidence | as-written member | corrected member |
|---|---|---|---|---|---|---|
| src/include/flock/model_manager/providers/handlers/base_handler.hpp:222-242 | the outer `catch (const std::exception&)` of the result loop also catches the provider's overflow error. It becomes an ordinary runtime error, or only a log line with a null result, so the engines' `catch (ExceededMaxOutputTokensError&)` never runs | a batch of one request whose response is flagged as overflowing, with a throwing handler (runtime error) or a logging one (null result, queue cleared) | the overflow error leaves `ExecuteBatch` unchanged, so the engines shrink the batch and retry | not executed | ProviderHandler.OverflowBecomesRuntimeError | ProviderHandler.OverflowPropagates |
| src/functions/aggregate/llm_rerank/implementation.cpp:149-233 | the carry is cleared before the call, and the overflow handler only shrinks the batch size, so the rows carried into the failed window are lost | rows "a", "b", "c", batch size 2, a provider that ranks `[1, 0]`, then overflows, then ranks `[0]`: the result is "a", "c" | the carried rows survive an overflow, and a complete ranking keeps every row | not executed | RerankEngine.OverflowLosesRow | RerankEngine.KeptCarryKeepsRow |
| src/include/flock/model_manager/providers/handlers/base_handler.hpp:27-60 | `CollectCompletions` and `CollectEmbeddings` clear `_request_batch` but not `_request_types`, so the types no longer line up with the requests | collect one completion, then queue a transcription: `CollectTranscriptions` reads the stale completion type beside it and runs nothing | both arrays are cleared together, so every request keeps its own type | not executed | ProviderHandler.StaleTypeHidesTranscription | ProviderHandler.ClearedTypesRunTranscription |
| src/prompt_manager/prompt_manager.cpp:26-38 | with an empty target, `find` answers the start position forever, so the loop never ends; with an empty content it does not even change the text | `ReplaceSection(t, "", c)` for any `t` and `c` | an empty target leaves the template unchanged, and a non-empty one replaces every occurrence of the original text | not executed | PromptText.EmptyTargetNeverStops | PromptText.ReplaceSection |
| src/functions/scalar/llm_filter/implementation.cpp:50-92 | without context columns the filter asks once and returns one result, and `Execute` writes it to row 0 only | a chunk of two rows and an `llm_filter` call without context columns: row 1 is never written | the single verdict is written to every row, as `llm_complete` does at `llm_complete/implementation.cpp:93-99` | not executed | ScalarFunctions.FilterLeavesRowsUnwritten | ScalarFunctions.FilterAnswersEveryRow |
