# djangae core, modelled in Dafny

This project models three parts of djangae, the Django-on-App-Engine toolkit, and proves properties
of the model.

- **The migration mapper** (`djangae/db/migrations/mapper_library.py`). This is a small map-only
  mapreduce. `shard_query` cuts the key range of a datastore query into at most `shard_count`
  shards:
  - it samples keys in `__scatter__` order;
  - `_generate_shards` builds consecutive pairs of the sorted sample;
  - the widest shard is bisected with `_mid_key`/`_next_key` until there are enough shards or none
    can be split;
  - every end key is shifted to its successor, so the shards become half-open ranges.

  `start_mapping` saves a `ShardedTaskMarker` with every shard queued and defers
  `begin_processing`. `begin_processing` moves the queued shards to the running list in
  transactions of three, deferring one `run_shard` per shard. Each `run_shard` applies the
  operation to the entities of its range and moves its shard to the finished list. `put` sets
  `is_finished` once nothing is queued or running. `is_mapper_running` reads that flag.
- **String routines of the Blobstore storage backend** (`djangae/storage.py`):
  - the universal-newline `readline` of `UniversalNewLineBlobReader`;
  - the range and disposition headers of `serve_file`;
  - names of the form `<blobkey>/<name>` built by `_save` and read back by `_get_key`;
  - the `get_valid_name` and `get_available_name` normalisations.
- **The search paginator** (`djangae/contrib/search/paginator.py`):
  - page-number validation and page windows;
  - the object cache of `SearchPage`;
  - the count, which comes from the remembered page while searching.

## Modelling decisions

**Datastore keys.** Keys are values `Key(kind, idOrName, namespace)`. Their order is the App Engine
order: namespace, then kind, then id or name, with integer ids before names (Python 2 orders `int`
before `str`). `Seqs.Sort` is Python's `sort()` over a strict total order, proved to be a sorted
permutation.

**Query answers.** The datastore's answers to the sharding queries are a parameter
`StoreAnswers`: the least and greatest key (`None` when the query matches nothing) and the keys in
scatter order. The store's answers are consistent: every key is in the query's kind and namespace,
the scatter keys are distinct entities, and each lies between the least and the greatest key. Python 2
rounding of `len(keys) / float(shard_count) * i` is computed on the exact fraction, in integers,
not on the floating-point product (see `Sharding.SubsampleIndex` under "Left out").

**Failures of `shard_query`.** When the loop reaches `_find_largest_shard` with no shard at all,
the code crashes on `None[0]`. This happens when more than one shard is asked for of a query with one
entity that the scatter sample returns, and for `shard_count == 2` with more than two sampled keys.
When the scatter sample misses the single entity, the sample is `[k, k]` and `shard_query` returns
one shard (`Sharding.ShardQuerySingleEntityUnsampled`). `_mid_key` also fails on key
names. Both failures are modelled as results: `Failure(NoShardToSplit)` and `Failure(KeyFailure(…))`.
They are not preconditions, because callers can reach them.

**Markers, the store and the task queue.** A marker's stored form is the `Marker` value. The
in-memory entity is the class `ShardedTaskMarker`. The datastore and the deferred queue are the
class `Datastore`. Its `markers` map is the saved markers and its `deferred` sequence is the queue
of `BeginTask` and `ShardTask` calls. The user's operation is recorded as the sequence `applied` of
entity keys it was applied to.

**Where the code falls short of its own intent.**
- `run_shard` reads its marker with `datastore.Get` (`mapper_library.py:195`) outside any
  `try`, so a missing marker raises `EntityNotFoundError`. The model returns
  `Failure(MarkerMissing)`. By contrast, the transaction of `begin_processing`
  (`mapper_library.py:223-251`) catches that error and gives up its batch.
- `_generate_shards` picks `shard_count - 1` keys at the rounded stride indices 1 to
  `shard_count - 1`, and never `keys[0]`. That gives `shard_count - 2` initial shards.
- The comment at `mapper_library.py:142-143` shifts the end keys so that each shard can be
  queried with `>=` and `<`, which asks for half-open ranges that do not overlap. The code gives neither disjointness nor
  coverage:
  - consecutive initial shards share their boundary key, which after the end shift lies in two
    ranges (`Sharding.SharedBoundaries`);
  - with more sampled keys than shards, no initial shard starts at the least key
    (`Sharding.SubsampleSkipsLeastKey`).

**Readline size limit.** Under a size limit, `readline` reads one character past the limit and
drops it. `readline(2)` on `"abcd"` returns `"ab"` and the next read starts at `"d"`
(`Storage.LongLine`, `Storage.SizeLimitExample`). The model keeps this behaviour.

## Model

| member | source | states |
|---|---|---|
| Keys.KeyLtIsStrictTotalOrder | djangae/db/migrations/mapper_library.py:43 | the key order `sorted` uses is irreflexive, transitive and total |
| Keys.NextKey | djangae/db/migrations/mapper_library.py:16-29 | `_next_key` stays in the key's kind and namespace and returns a strictly greater key |
| Keys.NextKeyOfIdIsImmediate | djangae/db/migrations/mapper_library.py:24-29 | for an integer id, no key lies strictly between the key and its successor |
| Keys.NextKeyInjective | djangae/db/migrations/mapper_library.py:16-29 | distinct keys have distinct successors |
| Keys.MidKey | djangae/db/migrations/mapper_library.py:31-40 | a key name as first argument is unsupported and as second a type error; for ids, the midpoint stays in the first key's scope, lies between the ids, splits them into halves that differ by at most one, and is below a greater high id |
| Sharding.ShardLtIsStrictTotalOrder | djangae/db/migrations/mapper_library.py:138 | the order `shards.sort()` uses on `[low, high]` pairs is a strict total order |
| Sharding.SubsampleIndexInBounds | djangae/db/migrations/mapper_library.py:49-50 | every rounded stride index is inside the key list |
| Sharding.SubsampleIndexIncreasing | djangae/db/migrations/mapper_library.py:49-50 | the rounded stride indices strictly increase, so the subsample keeps the keys' order |
| Sharding.Subsample | djangae/db/migrations/mapper_library.py:48-50 | the subsample has `shard_count - 1` keys, the j-th being the key at the rounded stride index `j + 1` |
| Sharding.Pairs | djangae/db/migrations/mapper_library.py:52-54 | the shards are the consecutive pairs of the keys, one fewer than the keys |
| Sharding.GenerateShards | djangae/db/migrations/mapper_library.py:42-56 | `_generate_shards` as a value: the sorted keys give one shard `[keys[0], keys[-1]]` for one shard asked for, else consecutive pairs, after subsampling when there are more keys than shards (no contract; its properties are the `GenerateShards*` lemmas) |
| Sharding.GenerateShardsCount | djangae/db/migrations/mapper_library.py:42-56 | one shard when one is asked for, `shard_count - 2` after subsampling, `len(keys) - 1` otherwise, and never more than `shard_count` |
| Sharding.GenerateOneShard | djangae/db/migrations/mapper_library.py:45-47 | the single shard runs from the least to the greatest key, and every key lies between them |
| Sharding.GenerateShardsShape | djangae/db/migrations/mapper_library.py:42-56 | the generated shards are well-formed, sorted, in the keys' scope, and each high key is the next shard's low key |
| Sharding.GenerateShardsEnds | djangae/db/migrations/mapper_library.py:52-54 | both ends of every generated shard are among the keys |
| Sharding.GenerateTwoShardsFromManyKeys | djangae/db/migrations/mapper_library.py:48-54 | asking for two shards from more than two keys generates no shard |
| Sharding.SharedBoundaries | djangae/db/migrations/mapper_library.py:52-54 | after the end shift, the boundary key of two consecutive generated shards lies in both ranges |
| Sharding.SubsampleSkipsLeastKey | djangae/db/migrations/mapper_library.py:48-50 | with more distinct keys than shards, the least key is below the low end of every generated shard |
| Sharding.SampleKeysNoDuplicates | djangae/db/migrations/mapper_library.py:93-104 | the sampled keys are distinct, except for `[min, max]` when the scatter sample is empty |
| Sharding.PairsNoDuplicates | djangae/db/migrations/mapper_library.py:52-54 | consecutive pairs of distinct keys, or of at most two keys, are distinct shards |
| Sharding.SubsampleNoDuplicates | djangae/db/migrations/mapper_library.py:48-50 | a subsample of distinct keys has distinct keys |
| Sharding.GenerateShardsNoDuplicates | djangae/db/migrations/mapper_library.py:42-56 | `_generate_shards` never makes the same shard twice |
| Sharding.WidestIndexIsFirstMaximal | djangae/db/migrations/mapper_library.py:65-72 | the chosen shard has the largest id range, and every earlier shard's range is strictly smaller (the first maximum wins) |
| Sharding.Widest | djangae/db/migrations/mapper_library.py:59-74 | `None` exactly for no shards; the only shard of a one-shard list; a type error exactly when there are two or more shards and some end is a key name; otherwise the shard the first-maximum index picks, whose id range no shard exceeds |
| Sharding.FindLargestShard | djangae/db/migrations/mapper_library.py:59-74 | the loop returns what `Widest` specifies |
| Sharding.Halves | djangae/db/migrations/mapper_library.py:118-126 | the halves `[low, mid]` and `[_next_key(mid), high]`, or the key failure `_mid_key` raises (no contract; see `HalvesFacts`) |
| Sharding.Bisect | djangae/db/migrations/mapper_library.py:132-138 | `remove` of the widest shard, each half appended unless present, then `sort` (no contract; see `BisectContents`, `BisectSize`, `BisectNarrows`) |
| Sharding.RefineStep | djangae/db/migrations/mapper_library.py:107-138 | one pass of the loop: stop on zero width or when both halves are present, crash on `None` or a key name, otherwise split (no contract; see `RefineStepSplit`, `RefineStepContents`) |
| Sharding.Refine | djangae/db/migrations/mapper_library.py:107-138 | the `while True` loop run to its end, terminating on the total id width (no contract; see `RefineFacts`) |
| Sharding.HalvesFacts | djangae/db/migrations/mapper_library.py:118-126 | the two halves of a splittable shard are well-formed, distinct from each other and from the shard, keep its outer ends, and are together narrower |
| Sharding.BisectContents | djangae/db/migrations/mapper_library.py:132-138 | removing the widest shard and appending both halves leaves the old shards less one copy of it, plus the halves |
| Sharding.BisectSize | djangae/db/migrations/mapper_library.py:129-137 | unless both halves are present, a bisection grows the list by zero or one shard |
| Sharding.BisectNarrows | djangae/db/migrations/mapper_library.py:132-138 | a bisection strictly lowers the total id range of the list |
| Sharding.RefineStepSplit | djangae/db/migrations/mapper_library.py:107-138 | one loop pass keeps the shards well-formed, in scope and sorted, grows the list by zero or one shard, and narrows the total range, so the loop terminates |
| Sharding.RefineStepContents | djangae/db/migrations/mapper_library.py:128-138 | one loop pass replaces one copy of the widest shard by whichever halves were missing |
| Sharding.RefineFacts | djangae/db/migrations/mapper_library.py:107-140 | the loop ends well-formed, in scope and still sorted; it never loses shards and never exceeds `shard_count` (the `assert` holds); ending short of `shard_count` means it stopped on a `break` |
| Sharding.RefineIdShards | djangae/db/migrations/mapper_library.py:107-138 | on a non-empty list of integer-id shards the loop cannot fail |
| Sharding.RefineStepNoDuplicates | djangae/db/migrations/mapper_library.py:128-138 | a split of distinct shards leaves distinct shards |
| Sharding.RefineNoDuplicates | djangae/db/migrations/mapper_library.py:107-138 | the loop, started on distinct shards, ends on distinct shards |
| Sharding.ShiftEndsNoDuplicates | djangae/db/migrations/mapper_library.py:144-145 | shifting the end keys keeps distinct shards distinct |
| Sharding.InitialShardsNoDuplicates | djangae/db/migrations/mapper_library.py:93-106 | the shards the loop starts from are distinct |
| Sharding.ShardQueryNoDuplicates | djangae/db/migrations/mapper_library.py:77-147 | `shard_query` never returns the same shard twice |
| Sharding.SampleKeys | djangae/db/migrations/mapper_library.py:93-104 | the sample is never empty, contains the least and the greatest key, and otherwise holds only keys from the first `shard_count * 32` in scatter order |
| Sharding.SampleKeysInScope | djangae/db/migrations/mapper_library.py:90-104 | every sampled key is in the query's kind and namespace |
| Sharding.InitialShardsFacts | djangae/db/migrations/mapper_library.py:93-106 | the initial shards are well-formed, in scope, sorted, and at most `shard_count` |
| Sharding.ShiftEnds | djangae/db/migrations/mapper_library.py:144-145 | each shard keeps its low key and its end moves to the end's successor |
| Sharding.ShiftEndKeys | djangae/db/migrations/mapper_library.py:144-145 | the loop computes `ShiftEnds` |
| Sharding.ShiftEndsFacts | djangae/db/migrations/mapper_library.py:142-145 | after the shift every shard is a non-empty half-open range in scope, with low keys in order |
| Sharding.BisectLargest | djangae/db/migrations/mapper_library.py:111-138 | one pass of the loop body computes `RefineStep` |
| Sharding.ShardQuerySpec | djangae/db/migrations/mapper_library.py:77-147 | `shard_query` as a value over the store's answers: `[]` without entities, else the refined initial shards with shifted ends, or the failure (no contract; see `ShardQueryFacts`) |
| Sharding.ShardQuery | djangae/db/migrations/mapper_library.py:77-147 | the method, with the loop invariants well-formed, in scope and the same refinement result, computes `ShardQuerySpec` |
| Sharding.ShardQueryFacts | djangae/db/migrations/mapper_library.py:77-147 | no entities give no shards; otherwise a successful run gives one to `shard_count` non-empty half-open ranges in the query's scope, ordered by low key, with no shard twice |
| Sharding.ShardQueryOneShard | djangae/db/migrations/mapper_library.py:45-47 | with one shard asked for, the result is one range holding every sampled key |
| Sharding.ShardQueryIdKeys | djangae/db/migrations/mapper_library.py:107-138 | with integer ids only, `shard_query` can fail only by finding no shard to split |
| Sharding.ShardQuerySingleEntity | djangae/db/migrations/mapper_library.py:96-116 | one entity that the scatter sample returns, with more than one shard asked for, fails on `_find_largest_shard`'s `None` |
| Sharding.ShardQuerySingleEntityUnsampled | djangae/db/migrations/mapper_library.py:96-116 | one entity that the scatter sample misses gives the single shard `[k, _next_key(k))` for any count |
| Sharding.ShardQueryTwoShards | djangae/db/migrations/mapper_library.py:106-112 | two shards asked for with more than two sampled keys fails the same way |
| TaskMarkers.MarkerKey | djangae/db/migrations/mapper_library.py:169-175 | the marker key has the marker kind and the given namespace |
| TaskMarkers.MarkerKeyInjective | djangae/db/migrations/mapper_library.py:169-175 | two jobs share a marker key exactly when identifier and namespace agree |
| TaskMarkers.AfterPut | djangae/db/migrations/mapper_library.py:177-189 | `put` changes only the flag |
| TaskMarkers.AfterPutFlag | djangae/db/migrations/mapper_library.py:178-187 | a true flag stays true; a false flag becomes true exactly when nothing is queued or running and something has finished |
| TaskMarkers.AfterPutIdempotent | djangae/db/migrations/mapper_library.py:177-189 | saving twice is saving once |
| TaskMarkers.Created | djangae/db/migrations/mapper_library.py:280-288 | the new marker queues every shard in order, with nothing running or finished, and is finished exactly when there are no shards |
| TaskMarkers.CreatedJobInvariant | djangae/db/migrations/mapper_library.py:280-288 | the new marker holds each shard exactly once and satisfies the job invariant |
| TaskMarkers.MoveBatch | djangae/db/migrations/mapper_library.py:228-245 | a batch pops `min(3, queued)` shards from the tail of the queued list onto the running list, last queued first |
| TaskMarkers.ShardTasks | djangae/db/migrations/mapper_library.py:232-243 | one deferred `run_shard` per popped shard, in pop order |
| TaskMarkers.MoveBatchKeepsJob | djangae/db/migrations/mapper_library.py:228-245 | a batch conserves the job's shards and keeps the job invariant and the flag |
| TaskMarkers.CompleteShard | djangae/db/migrations/mapper_library.py:207-213 | completing removes one copy of the shard from running and appends it to finished |
| TaskMarkers.CompleteShardKeepsJob | djangae/db/migrations/mapper_library.py:207-213 | completing keeps the job invariant; the job finishes exactly when the last running shard completes with nothing queued |
| TaskMarkers.CompleteShardOnce | djangae/db/migrations/mapper_library.py:195-213 | once completed, a shard is no longer running, so a redelivered worker returns at the guard |
| TaskMarkers.CompleteJobShardOnce | djangae/db/migrations/mapper_library.py:195-213 | in a job over distinct shards a running shard is running exactly once, so after it completes it is not running and a redelivered worker returns at the guard |
| TaskMarkers.Batch | djangae/db/migrations/mapper_library.py:232-234 | one batch moves `min(3, queued)` shards |
| TaskMarkers.Drained | djangae/db/migrations/mapper_library.py:253-257 | after some batches the queued list is its untouched prefix, and the flag and finished list are unchanged |
| TaskMarkers.DrainStep | djangae/db/migrations/mapper_library.py:253-257 | each further transaction moves the next `min(3, remaining)` shards |
| TaskMarkers.DrainStepTasks | djangae/db/migrations/mapper_library.py:232-257 | the workers deferred by one more batch extend those deferred so far |
| TaskMarkers.DrainTasks | djangae/db/migrations/mapper_library.py:232-257 | the workers deferred after `moved` shards have been popped: one per shard, in pop order (no contract; see `DrainStepTasks`, `BeginProcessing`) |
| TaskMarkers.DrainedKeepsJob | djangae/db/migrations/mapper_library.py:217-257 | draining the whole queue leaves nothing queued, every shard running in reverse queue order, and the job invariant intact |
| TaskMarkers.CompleteAllFinishes | djangae/db/migrations/mapper_library.py:191-215 | once nothing is queued, every running shard completing once in any order empties the running list, appends the shards to finished in completion order, and finishes the job |
| TaskMarkers.Matching | djangae/db/migrations/mapper_library.py:199-200 | the worker's query matches exactly the entities of the query's scope with `low <= key < high` |
| TaskMarkers.ShardScanFacts | djangae/db/migrations/mapper_library.py:199-204 | the worker visits exactly the entities of its range, in ascending key order |
| TaskMarkers.ShardScan | djangae/db/migrations/mapper_library.py:199-204 | the keys the worker's query returns, sorted by key (no contract; see `ShardScanFacts`) |
| TaskMarkers.ShardedTaskMarker.constructor | djangae/db/migrations/mapper_library.py:157-167 | a new marker has three empty lists and a false flag |
| TaskMarkers.ShardedTaskMarker.Load | djangae/db/migrations/mapper_library.py:209-210 | a reloaded marker holds exactly the stored record |
| TaskMarkers.ShardedTaskMarker.Put | djangae/db/migrations/mapper_library.py:177-189 | the flag becomes `AfterPut`'s and the record is saved under the marker's key |
| TaskMarkers.ShardedTaskMarker.RunShard | djangae/db/migrations/mapper_library.py:191-215 | a missing marker raises and changes nothing; a shard no longer running changes nothing; otherwise the operation is applied to `ShardScan`'s keys in order, and the marker becomes `CompleteShard` of the old one |
| TaskMarkers.ShardedTaskMarker.ApplyAll | djangae/db/migrations/mapper_library.py:203-204 | the scan loop applies the operation to each result in turn, so the applied log grows by exactly the results |
| TaskMarkers.ShardedTaskMarker.CompleteShardTxn | djangae/db/migrations/mapper_library.py:207-215 | the transaction stores `CompleteShard` of the stored marker |
| TaskMarkers.ShardedTaskMarker.BeginProcessing | djangae/db/migrations/mapper_library.py:217-257 | a missing marker raises and changes nothing; otherwise the stored marker becomes `Drained` over the whole queued list, with `DrainTasks` deferred |
| TaskMarkers.ShardedTaskMarker.BatchTxn | djangae/db/migrations/mapper_library.py:223-251 | a missing marker changes nothing; otherwise the stored marker becomes `MoveBatch` of itself, with one worker deferred per popped shard |
| TaskMarkers.ShardedTaskMarker.PopBatch | djangae/db/migrations/mapper_library.py:232-243 | the inner loop moves `Batch` from queued to running and defers its workers, in pop order |
| TaskMarkers.PopShards | djangae/db/migrations/mapper_library.py:232-234 | `n` pops from the tail of queued: queued keeps its first `len - n` shards and running gains the popped ones, last queued first |
| Mapping.StartMapping | djangae/db/migrations/mapper_library.py:260-295 | an existing marker or a sharding failure changes nothing; otherwise the `Created` marker is saved under the job's key and `begin_processing` is deferred exactly when there are shards |
| Mapping.CreateMarker | djangae/db/migrations/mapper_library.py:280-291 | the `Created` marker is saved under the job's key, and `begin_processing` is deferred exactly when there are shards |
| Mapping.QueueShards | djangae/db/migrations/mapper_library.py:283-285 | the shards are appended to the queued list in order |
| Mapping.CreatedJobHasDistinctShards | djangae/db/migrations/mapper_library.py:280-285 | the marker `start_mapping` saves satisfies the job invariant over the shards `shard_query` returned, which have no duplicates |
| Mapping.RunningIffWorkLeft | djangae/db/migrations/mapper_library.py:298-303 | a job is running exactly when its marker exists and still has a shard queued or running |
| Mapping.IsMapperRunning | djangae/db/migrations/mapper_library.py:298-303 | `not is_finished` of the job's marker, or false when it is missing (no contract; see `RunningIffWorkLeft`) |
| Storage.UniversalNewLineBlobReader.Readline | djangae/storage.py:169-197 | the line returned and the new position are `NextLine` of the blob at the old position |
| Storage.UniversalNewLineBlobReader.ReadKept | djangae/storage.py:172-180 | the read loop keeps the characters up to the first terminator, the end, or `size`, and has read one character beyond |
| Storage.UniversalNewLineBlobReader.Read1 | djangae/storage.py:174 | `read(size=1)` returns the next character, or `""` at the end, and advances past it |
| Storage.UniversalNewLineBlobReader.SeekBack1 | djangae/storage.py:191 | `seek(-1, 1)` steps back one character |
| Storage.LineEnd | djangae/storage.py:175 | the first `\r` or `\n` at or after the position, or the end of the blob |
| Storage.Terminated | djangae/storage.py:193-195 | a `\n` is appended exactly when something was kept and the size limit is not reached |
| Storage.NextLine | djangae/storage.py:169-197 | the next position never moves backwards and never passes the end |
| Storage.LineFeed | djangae/storage.py:175-195 | text ended by `\n` is returned with one `\n`, and the next read follows the terminator |
| Storage.CrLf | djangae/storage.py:183-191 | `\r\n` is consumed as one terminator |
| Storage.LoneCr | djangae/storage.py:186-191 | after a lone `\r` the following character is pushed back and read next |
| Storage.CrAtEnd | djangae/storage.py:188-191 | a `\r` at the end of the blob pushes nothing back |
| Storage.LastLine | djangae/storage.py:176-177 | a last line without terminator is returned with a `\n` and leaves the reader at the end |
| Storage.LongLine | djangae/storage.py:170-195 | a line longer than `size` is cut to `size` characters without `\n`, and the character after the cut is consumed |
| Storage.SizeLimitExample | djangae/storage.py:170-195 | `readline(2)` on `"abcd"` returns `"ab"` and leaves the reader at `"d"` |
| Storage.LineWithinLimit | djangae/storage.py:193-195 | under a size limit the line, its `\n` included, has at most `size` characters |
| Storage.EmptyLine | djangae/storage.py:174-197 | `readline` returns `""` at the end of the blob and on an empty line |
| Storage.ReadlineProgresses | djangae/storage.py:174-191 | before the end of the blob every `readline` consumes at least one character |
| Storage.RangeHeader | djangae/storage.py:69-80 | with no non-zero offset or size the request's `HTTP_RANGE` passes through; otherwise a range string is built |
| Storage.RangeHeaderRoundTrip | djangae/storage.py:71-77 | a built range reads back as the offset (absent when zero or missing) and `offset + size` (absent when size is zero or missing) |
| Storage.Disposition | djangae/storage.py:82-87 | a filename without `as_download` is a `ValueError`; the header is present exactly for downloads |
| Storage.DispositionNamesFile | djangae/storage.py:82-85 | the attachment is named by the non-empty `filename`, else by the stored file name, between quotes |
| Storage.FilePart | djangae/storage.py:101-127 | the saved file part has no backslash and no leading slash |
| Storage.StorageName | djangae/storage.py:127 | the `'%s/%s'` name of a blob key and the normalised file part (no contract; see `StorageNameRoundTrip`) |
| Storage.BlobKeyOf | djangae/storage.py:161-162 | `_get_key` returns a key without `/` |
| Storage.StorageNameRoundTrip | djangae/storage.py:161-162 | for a key without `/`, `_get_key` of a saved name is the key, and the rest is the normalised file part |
| Storage.StorageNameOfAvailable | djangae/storage.py:100-127 | saving an available name stores the same name as saving the original |
| Storage.ValidName | djangae/storage.py:155-156 | a valid name has no backslash and no surrounding white space |
| Storage.AvailableName | djangae/storage.py:158-159 | an available name has no backslash and differs from the input only where the input had one |
| Storage.ValidNameIdempotent | djangae/storage.py:155-156 | `get_valid_name` is idempotent |
| Storage.AvailableNameIdempotent | djangae/storage.py:158-159 | `get_available_name` is idempotent |
| Storage.ValidNameIsAvailable | djangae/storage.py:155-159 | a valid name is already available |
| Paginator.ValidateNumber | djangae/contrib/search/paginator.py:39-48 | success exactly for an integer of at least 1, returned unchanged; `PageNotAnInteger` exactly when `int()` raises; `EmptyPage` exactly below 1; no upper bound |
| Paginator.ValidateNumberOfText | djangae/contrib/search/paginator.py:42-48 | a number written out as text validates to itself when positive and to `EmptyPage` otherwise |
| Paginator.ValidateNumberSpaceAfterSign | djangae/contrib/search/paginator.py:42-48 | a sign, a space and a digit parse as `int()` parses them: `"+ 2"` validates to 2 and `"- 1"` is an `EmptyPage` |
| Text.ParseIntSpaceAfterSign | djangae/contrib/search/paginator.py:43 | `int()` skips white space between the sign and the digits |
| Paginator.AsInt | djangae/contrib/search/paginator.py:42-45 | `int(number)` on an integer, on a decimal string (white space around it and after its sign allowed), or the `TypeError`/`ValueError` as `None` (no contract; see `ValidateNumber`, `ValidateNumberSpaceAfterSign`) |
| Paginator.WindowsAdjacent | djangae/contrib/search/paginator.py:53-54 | every window is `per_page` wide and page `n`'s top is page `n + 1`'s bottom |
| Paginator.Window | djangae/contrib/search/paginator.py:53-54 | `bottom = (number - 1) * per_page` and `top = bottom + per_page` (no contract; see `WindowsAdjacent`, `WindowsDisjoint`, `PageOfIndex`) |
| Paginator.WindowsDisjoint | djangae/contrib/search/paginator.py:53-54 | windows of different pages do not overlap |
| Paginator.PageOfIndex | djangae/contrib/search/paginator.py:53-54 | every index of the object list lies in exactly one page's window |
| Paginator.Slice | djangae/contrib/search/paginator.py:55 | the page holds the objects of its window in order, clamped to the list: empty from a bottom past the end, the tail for a window that runs past it, else exactly `top - bottom` objects |
| Paginator.LoadFacts | djangae/contrib/search/paginator.py:17-26 | loading computes the objects only when none are cached, keeps the cached items otherwise, leaves a list when not lazy, and is idempotent |
| Paginator.LoadAfterList | djangae/contrib/search/paginator.py:25-26 | a later load never undoes an earlier non-lazy one |
| Paginator.Load | djangae/contrib/search/paginator.py:17-26 | `load_objects` on the cache value: compute the objects only when none are cached, then make a list unless lazy (no contract; see `LoadFacts`) |
| Paginator.SearchPage.LoadObjects | djangae/contrib/search/paginator.py:17-26 | the cache becomes `Load` of the old cache and holds the page's objects |
| Paginator.SearchPage.Iter | djangae/contrib/search/paginator.py:28-30 | iteration loads lazily and yields the page's objects |
| Paginator.SearchPaginator.Page | djangae/contrib/search/paginator.py:50-68 | orphans and invalid numbers are refused without change; otherwise a new page of the window's slice is remembered and loaded eagerly, and the count becomes its hit count while searching |
| Paginator.SearchPaginator.Count | djangae/contrib/search/paginator.py:62-68 | `_get_count`: the remembered page's hit count while searching, else the length of the object list (no contract; see `SearchPaginator.Page`) |

## Left out

- The datastore, transactions, `deferred.defer` and `cPickle` are not modelled as such. The store
  is a map of marker records, the task queue is a sequence of tasks, pickling is the identity, and
  each transaction is one atomic method.
- Concurrency and retries are not modelled: lost transaction conflicts, re-executions and several
  workers interleaving. The order-independence of completion is stated by
  `TaskMarkers.CompleteAllFinishes` instead.
- The datastore's answers to `shard_query` are a parameter (`StoreAnswers`). The model does not
  compute which entities a real query would return.
- `ShardQueryFacts` does not claim that the shards are disjoint or cover the key range, because the
  code gives neither (see `SharedBoundaries` and `SubsampleSkipsLeastKey`).
- `Sharding.SubsampleIndex`: the stride index is `len(keys) * i / shard_count` rounded as an exact
  fraction, whereas Python computes `len(keys) / float(shard_count) * i` in floating point before
  rounding. For a `shard_count` that is not a power of two the model's index can be one higher. With
  34 sampled keys, `shard_count` 28 and `i` 21 the product is 25.499999999999996, so Python takes
  `keys[25]` and the model `keys[26]`; other cases are 49 keys, count 22, `i` 11 and 61 keys, count 14,
  `i` 7. The default count 32 is not affected. The in-bounds, increasing and count properties hold
  for both roundings.
- The settings lookup `DJANGAE_MIGRATION_SHARD_COUNT` is not modelled; `StartMapping` takes the
  count as a parameter. A count of 0 is excluded by a precondition. For it, `_generate_shards`
  divides by zero whenever there is a key.
- The query's property filters and its `Order` calls are not modelled. A query is its kind and
  namespace.
- `RunShard` does not model the user's operation or the `getattr` of `operation_method`. Applying
  the operation is recorded as the sequence of entity keys it was applied to.
- The logging in `begin_processing` and the non-transactional wrapper of `calculate_shards` are not
  modelled.
- In `serve_file`, these are not modelled: the type dispatch on the blob argument, the
  `BlobInfo`/`cloudstorage` lookups, the response headers other than the range and the disposition,
  and `smart_str`.
- `Storage.RangeHeader`: the offset and the size are integers or absent. The `int(offset)` cast of
  `serve_file` is not modelled: a string or float offset truncated to an integer, the `ValueError` of a
  non-numeric one, and a string `"0"` offset counting as given. Nor is a size that is not an integer,
  which Python adds uncast, so offset 10 with size 5.5 gives `"10-15.5"`.
- `_save` is modelled only for its name format. Not modelled: the content-type dispatch, the blob
  file creation and writing, and the `ValueError`s raised for unsupported content.
- The `BlobstoreStorage` methods `delete`, `exists`, `size`, `url` and `created_time` are not
  modelled. They are lookups in the Blobstore.
- `BlobstoreFile`, `BlobstoreFileUploadHandler` and chunked streaming are not modelled. They are
  I/O over foreign objects.
- `get_valid_name` is modelled without `force_unicode`. Strings are sequences of characters, and
  white space is what Python 2's `unicode.isspace` accepts.
- `Paginator.AsInt`: `int()` on a float or other numeric types is not modelled. A page number is an
  integer, a string, or something `int()` refuses. Strings are parsed with ASCII digits only; Python 2's
  `int()` on a unicode string also accepts other Unicode decimal digits, such as `u'\u0663'`, which the
  model refuses.
- `Paginator.SearchPage.Iter`: a lazily cached generator can be iterated only once. The model treats
  the cache as its items.
- The search adapter (`SearchQueryAdapter`), `as_model_objects` and the adapter's `count()` are not
  modelled; their answers are parameters of a page. The parent paginator's count is the length of the
  object list.
- Django's and DRF's paginator internals are foreign code and are not modelled: `num_pages`,
  `paginate_queryset` and exception translation. So are the tests and glue modules.
- A negative page size is not modelled: `per_page` is a natural number.
