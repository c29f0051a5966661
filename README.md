# Batch iterator combinators and the function registry, in Dafny

This project models two pieces of CrateDB:

- **`BatchIterators`**. These are combinators over a *batch iterator*: a cursor over a source whose elements arrive in batches. The source hands out the elements of the loaded batch with `moveNext`/`currentElement`, reports with `allLoaded` whether more batches will come, and fetches the next batch with `loadNextBatch`.
  - `fold` drains the source into a state with a step function, batch after batch.
  - `collect` does the same with a `Collector` (supplier, accumulator, finisher), and completes a caller's future.
  - `partition` regroups the elements into chunks. A chunk is closed by a size bound or by a limiter on the chunk's state.
  - `map` passes each element through a function.
- **`AbstractFunctionModule`**. This is the registry of function implementations. `register` files a signature with its factory under its name, its OID and its schema, and refuses a signature already registered under its name. Two lookups read the indexes back: by OID, and by a name that is qualified (`schema.name`) or bare.

Files:

- `wrappers.dfy`: `Option`, `Result` and `Outcome`. A Java `null` is `None`; a thrown exception is `Failure`/`Fail`.
- `batches.dfy`: the batch iterator the combinators drive (`Batches.BatchIterator`). The source is a fixed sequence of batches and may break after a given number of elements.
- `batch_iterators.dfy`: `fold`, both `collect`s, `partition` and `map`. Each is an imperative method or class over the batch iterator. Each is proved against a specification function:
  - `FoldLeft` for folds.
  - `Collected` for collecting.
  - `Chunks` for partitioning.
  - `MapSeq` for mapping.
- `function_module.dfy`: the registry as a class over maps and a set. It also models `String.indexOf` and `String.split("\\.")` as the lookup uses them.

How the model represents the Java behaviour:

- **Errors are values.** A step, or a collector's supplier, accumulator or finisher, may throw, so they return `Result`. A source that breaks makes every `moveNext` from its fault position on throw.
- **Futures become return values.** `loadNextBatch` is a synchronous step. The future `fold` returns becomes the method's `Result`.
- **Partition state.** The open chunk's elements and the chunks emitted so far are ghost state of the partition iterator. Its invariant ties them to `Chunks` of everything the delegate had still to deliver.
- **Registry invariant.** The registry's invariant (`FunctionModule.Indexed`) relates its four structures:
  - Provider lists are non-empty, hold no duplicate signatures, and hold only their own name's signatures.
  - The name index holds the last signature registered under each name.
  - The OID index holds registered signatures under their own OIDs.
  - The schema set is exactly the set of the registered names' schemas.

Where the code and the documentation of these classes differ, the model follows the code:

- **Which future `collect` returns.** The four-argument `collect` says it returns the future it was given. It actually returns the `whenComplete` stage, which completes with the same outcome. `CollectInto` returns that outcome and states how the given future is completed.
- **Lookups whose arguments are "validated".** Both lookups build an `IllegalArgumentException` for a `null` argument and for a malformed name, but never throw it. So:
  - a `null` OID yields `null`;
  - a `null` name fails with a `NullPointerException` from `indexOf`;
  - `a.b.c` is looked up as `a.b`;
  - `a.` and `.` fail with an array index out of bounds.

## Model

| member | source | states |
|---|---|---|
| Batches.BatchIterator.MoveNext | dex/src/main/java/io/crate/data/BatchIterators.java:41 | the delegate's `moveNext` as `fold` relies on it: true hands out exactly the next element of the source (what was left is that element followed by what is left now); false means the loaded batch is drained; it throws exactly when the source's fault position is reached |
| Batches.BatchIterator.CurrentElement | dex/src/main/java/io/crate/data/BatchIterators.java:42 | `currentElement` is the last element handed out |
| Batches.BatchIterator.LoadNextBatch | dex/src/main/java/io/crate/data/BatchIterators.java:52 | `loadNextBatch` fails exactly when all batches are loaded, and otherwise moves to the next batch without skipping or repeating an element |
| Batches.BatchIterator.AllLoaded | dex/src/main/java/io/crate/data/BatchIterators.java:44 | `allLoaded` holds exactly when the loaded batch is the last one: no batch is still to come |
| Batches.BatchIterator.ExhaustedHasNoRest | dex/src/main/java/io/crate/data/BatchIterators.java:44-49 | a drained, fully loaded source has nothing left: every element has been handed out |
| BatchIterators.DrainBatch | dex/src/main/java/io/crate/data/BatchIterators.java:40-47 | the `try` block of `fold`: on success the loaded batch is drained and the state is the left fold of the step over the elements handed out; a throwing `moveNext` or `step` fails the drain with the first error |
| BatchIterators.FoldRound | dex/src/main/java/io/crate/data/BatchIterators.java:41-42 | one round of the `while` loop: a `moveNext` that hands out the next element applies the step to the state and that element; one that returns false leaves the batch drained; one that throws fails with the source's error |
| BatchIterators.Fold | dex/src/main/java/io/crate/data/BatchIterators.java:37-56 | `fold` yields the left fold of the step over every remaining element of every batch, or the first error of a step or of the source; on success all batches are loaded and drained, and `loadNextBatch` was called once per batch that was still to come; on failure the fold stopped at the first failing step or at the source's fault, and no `loadNextBatch` follows a failure: in this model's source a failure inside a freshly loaded batch comes after one of its elements was handed out, since a break never falls on the first `moveNext` after a load |
| BatchIterators.FoldSumRun | dex/src/main/java/io/crate/data/BatchIterators.java:37-56 | `fold` itself sums batches `[1, 2]`, `[3, 4]`, `[5]` to 15, loading the two batches that were still to come |
| BatchIterators.FoldFailsFast | dex/src/main/java/io/crate/data/BatchIterators.java:37-56 | folding `[[1], [2], [3]]` with a step that always throws fails with that error after one element, still in the first batch: the next batch is never loaded |
| BatchIterators.FoldLeftAppend | dex/src/main/java/io/crate/data/BatchIterators.java:51-53 | folding a concatenation is folding the first part and continuing from the state reached, as `fold` does across `loadNextBatch` |
| BatchIterators.FoldLeftFailedPrefix | dex/src/main/java/io/crate/data/BatchIterators.java:45-46 | once a step has thrown, no later element changes the outcome |
| BatchIterators.FoldBatchwiseIsFoldLeft | dex/src/main/java/io/crate/data/BatchIterators.java:37-56 | folding batch by batch, as the recursion through `loadNextBatch` does, equals one left fold over all elements in order |
| BatchIterators.BatchSplitIndependence | dex/src/main/java/io/crate/data/BatchIterators.java:37-56 | the result of a fold does not depend on how the same elements are split into batches |
| BatchIterators.FoldSumExample | dex/src/main/java/io/crate/data/BatchIterators.java:37-56 | summing `[1, 2, 3, 4, 5]` gives 15 for one batch and for batches `[1, 2]`, `[3, 4]`, `[5]` |
| BatchIterators.ResultFuture.Complete | dex/src/main/java/io/crate/data/BatchIterators.java:91-92 | `complete` sets the value only on a future not yet completed, and says whether it did |
| BatchIterators.ResultFuture.CompleteExceptionally | dex/src/main/java/io/crate/data/BatchIterators.java:93-94 | `completeExceptionally` sets the exception only on a future not yet completed, and says whether it did |
| BatchIterators.CollectInto | dex/src/main/java/io/crate/data/BatchIterators.java:82-97 | the four-argument `collect`: the outcome is the finisher applied to the fold of the accumulator over the remaining elements, from the given state; the given future is completed with that outcome unless it was already complete; whenever the fold gets through, even if the finisher then throws, the source is exhausted |
| BatchIterators.Collect | dex/src/main/java/io/crate/data/BatchIterators.java:68-70 | the two-argument `collect` is the four-argument one started from the supplier's state; a supplier that throws fails `collect` at once, with the source untouched; whenever the fold gets through, even if the finisher then throws, the source is exhausted |
| BatchIterators.CollectToList | dex/src/main/java/io/crate/data/BatchIterators.java:87-88 | a collector appending to a list keeps every element, in order, after the initial list |
| BatchIterators.CollectOfBrokenSource | dex/src/main/java/io/crate/data/BatchIterators.java:88-96 | when the source breaks, `collect` fails: with the source's error unless the accumulator threw first, and the finisher does not run |
| BatchIterators.ChunkEnd | dex/src/main/java/io/crate/data/BatchIterators.java:135-140 | a chunk ends at the first length that reaches `size`, trips the limiter or exhausts the input, and not before |
| BatchIterators.FirstChunk | dex/src/main/java/io/crate/data/BatchIterators.java:134-144 | a non-empty input starts with one non-empty chunk, and the chunks after it are the chunks of the rest |
| BatchIterators.ChunksFlatten | dex/src/main/java/io/crate/data/BatchIterators.java:116-155 | the chunks of `partition` concatenate to its input: nothing is lost, duplicated or reordered |
| BatchIterators.ChunksBounded | dex/src/main/java/io/crate/data/BatchIterators.java:135-140 | every chunk holds between one and `size` elements, and the limiter did not trip on any shorter prefix of it |
| BatchIterators.ChunksComplete | dex/src/main/java/io/crate/data/BatchIterators.java:140-147 | every chunk but the last holds `size` elements or tripped the limiter; only the trailing chunk may be a partial flush |
| BatchIterators.ChunksOfClosedChunk | dex/src/main/java/io/crate/data/BatchIterators.java:140-144 | a full, tripped or final chunk is emitted as it is, whatever follows it |
| BatchIterators.PartitionExample | dex/src/main/java/io/crate/data/BatchIterators.java:102-108 | `[1, 2, 3, 4, 5]` in chunks of two is `[[1, 2], [3, 4], [5]]` |
| BatchIterators.PartitionLimiterExample | dex/src/main/java/io/crate/data/BatchIterators.java:110-112 | a limiter on the summed weight closes a chunk before it is full: `[1, 1, 1, 1]` with a limit of three is `[[1, 1, 1], [1]]` |
| BatchIterators.FillChunk | dex/src/main/java/io/crate/data/BatchIterators.java:134-139 | the `while` loop of the partition's `moveNext`: it pulls exactly the elements the delegate hands out into the open chunk, accumulating its state, and stops at `size`, at the limiter or at the end of the loaded batch; it fails exactly when the delegate's `moveNext` throws, at the delegate's fault and with its error, so a delegate error is never swallowed |
| BatchIterators.AccountedShift | dex/src/main/java/io/crate/data/BatchIterators.java:135-139 | moving elements from the delegate into the open chunk keeps every element accounted for |
| BatchIterators.EmitClosedChunk | dex/src/main/java/io/crate/data/BatchIterators.java:140-144 | emitting a closed chunk keeps the emitted chunks a prefix of the chunks of the input |
| BatchIterators.AllEmitted | dex/src/main/java/io/crate/data/BatchIterators.java:146-147 | when the delegate is exhausted and no chunk is open, the emitted chunks are all the chunks of the input |
| BatchIterators.PartitionIterator.constructor | dex/src/main/java/io/crate/data/BatchIterators.java:121-125 | a new partition has emitted nothing, has no current element and an empty open chunk |
| BatchIterators.PartitionIterator.MoveNext | dex/src/main/java/io/crate/data/BatchIterators.java:133-148 | the partition's `moveNext` keeps the invariant (emitted chunks, then the chunks of the open chunk and what the delegate has left, are the chunks of the input); true emits exactly one more chunk, with its accumulated state as the current element, and opens a fresh chunk (index 0, the supplier's new state); false leaves the current element `null` with the loaded batch drained, and once all is loaded every chunk has been emitted; it fails exactly when the delegate's `moveNext` throws, at the delegate's fault and with its error, leaving the current element unchanged; it never returns false while the delegate stands at its fault, and a chunk emitted with the delegate at its fault is full or tripped the limiter, since the loop would otherwise have called the delegate's `moveNext` again |
| BatchIterators.PartitionIterator.Settle | dex/src/main/java/io/crate/data/BatchIterators.java:140-147 | after a loop that ended without an error, a chunk is emitted exactly when it is full, tripped the limiter, or is not empty with the delegate drained and fully loaded; the emitted chunk is the open one, a fresh chunk is opened, and otherwise the element becomes `null` and the chunk stays open |
| BatchIterators.PartitionIterator.CurrentElement | dex/src/main/java/io/crate/data/BatchIterators.java:150-153 | the current element is `null` or the accumulated state of the last chunk emitted |
| BatchIterators.PartitionIterator.AllLoaded | dex/src/main/java/io/crate/data/BatchIterators.java:121-130 | the partition's `allLoaded` is the delegate's: it holds exactly when no batch is still to come |
| BatchIterators.PartitionIterator.LoadNextBatch | dex/src/main/java/io/crate/data/BatchIterators.java:121-130 | `loadNextBatch` is the delegate's; the open chunk survives it |
| BatchIterators.MapSeqAppend | dex/src/main/java/io/crate/data/BatchIterators.java:157-169 | mapping distributes over concatenation |
| BatchIterators.FoldLeftMap | dex/src/main/java/io/crate/data/BatchIterators.java:157-169 | folding over `map(it, f)` is folding over `it` with `f` applied inside the step |
| BatchIterators.MappedBatchIterator.constructor | dex/src/main/java/io/crate/data/BatchIterators.java:157-158 | `map(bi, mapper)` wraps the delegate: what is left to deliver is the delegate's rest, element by element through the mapper |
| BatchIterators.MappedBatchIterator.AllLoaded | dex/src/main/java/io/crate/data/BatchIterators.java:158-167 | the mapped `allLoaded` is forwarded to the delegate: it holds exactly when no batch is still to come |
| BatchIterators.MappedBatchIterator.MoveNext | dex/src/main/java/io/crate/data/BatchIterators.java:158-167 | the mapped `moveNext` is the delegate's: true hands out exactly the next mapped element, false means the loaded batch is drained; it fails exactly when the delegate does, with the delegate's error |
| BatchIterators.MappedBatchIterator.CurrentElement | dex/src/main/java/io/crate/data/BatchIterators.java:160-162 | the current element is the mapped image of the delegate's last element handed out |
| BatchIterators.MappedBatchIterator.LoadNextBatch | dex/src/main/java/io/crate/data/BatchIterators.java:158-167 | `loadNextBatch` is the delegate's and loses no mapped element |
| FunctionModule.IndexOf | server/src/main/java/io/crate/expression/AbstractFunctionModule.java:79 | `indexOf` is -1 exactly when the character is absent, and otherwise its first position |
| FunctionModule.JavaSplit | server/src/main/java/io/crate/expression/AbstractFunctionModule.java:81 | `split("\\.")`: a name without a dot is its own single part; otherwise the parts are a prefix of the pieces between the dots, every part is dot-free, the last part is not empty, and only empty trailing pieces were dropped |
| FunctionModule.SplitJoin | server/src/main/java/io/crate/expression/AbstractFunctionModule.java:81 | the pieces between the dots join back, with dots, into the name |
| FunctionModule.JoinSplit | server/src/main/java/io/crate/expression/AbstractFunctionModule.java:81 | dot-free pieces joined with dots split back into the same pieces |
| FunctionModule.DropTrailingEmpty | server/src/main/java/io/crate/expression/AbstractFunctionModule.java:81 | `split` drops exactly the trailing empty pieces: the result is a prefix, does not end in an empty piece, and only empty pieces were dropped |
| FunctionModule.QualifiedSplit | server/src/main/java/io/crate/expression/AbstractFunctionModule.java:79-86 | a qualified name `schema.name` splits into `[schema, name]` |
| FunctionModule.ThreePartSplit | server/src/main/java/io/crate/expression/AbstractFunctionModule.java:81-86 | `a.b.c` splits into the three parts `a`, `b`, `c`; the lookup then uses the first two, as the contract of `GetFunctionSignaturesByName` states |
| FunctionModule.TrailingDotSplit | server/src/main/java/io/crate/expression/AbstractFunctionModule.java:81-86 | `split` drops the trailing empty part of `a.`, leaving the single part `a` |
| FunctionModule.AbstractFunctionModule.constructor | server/src/main/java/io/crate/expression/AbstractFunctionModule.java:46-50 | a new registry is empty and satisfies the invariant |
| FunctionModule.AbstractFunctionModule.Register | server/src/main/java/io/crate/expression/AbstractFunctionModule.java:53-66 | `register` throws `IllegalStateException` exactly when an equal signature is registered under the name, changing nothing; otherwise it appends the provider at the end of its name's list, indexes the signature by OID and by name (the last registration wins) and adds the schema; the invariant is kept |
| FunctionModule.AppendedWellFormed | server/src/main/java/io/crate/expression/AbstractFunctionModule.java:54-65 | appending a signature not yet registered keeps every provider list free of duplicates and of foreign names |
| FunctionModule.AppendedLastWins | server/src/main/java/io/crate/expression/AbstractFunctionModule.java:54-65 | after `register` the name index holds the last provider of each name |
| FunctionModule.AppendedKeepsRegistered | server/src/main/java/io/crate/expression/AbstractFunctionModule.java:65 | registering never unregisters: lists only grow |
| FunctionModule.AppendedOids | server/src/main/java/io/crate/expression/AbstractFunctionModule.java:62-65 | after `register` the OID index still holds only registered signatures under their own OIDs |
| FunctionModule.AddedSchema | server/src/main/java/io/crate/expression/AbstractFunctionModule.java:63-64 | after `register` the schema set is still the set of schemas of the registered names |
| FunctionModule.RegisterKeepsIndexed | server/src/main/java/io/crate/expression/AbstractFunctionModule.java:57-65 | `register` of a new signature keeps all four indexes consistent |
| FunctionModule.NameIndexRegistered | server/src/main/java/io/crate/expression/AbstractFunctionModule.java:86 | what the name index holds under a name carries that name and is registered |
| FunctionModule.AbstractFunctionModule.GetFunctionSignatureByOid | server/src/main/java/io/crate/expression/AbstractFunctionModule.java:68-73 | a signature is returned exactly for a known OID, carries that OID and is registered; a `null` OID yields `null` without throwing |
| FunctionModule.AbstractFunctionModule.LookupName | server/src/main/java/io/crate/expression/AbstractFunctionModule.java:86-91 | `signatureByName.get` finds a signature exactly for a known name, and it carries that name and is registered |
| FunctionModule.AbstractFunctionModule.GetFunctionSignaturesByName | server/src/main/java/io/crate/expression/AbstractFunctionModule.java:75-95 | a `null` name throws `NullPointerException`; a dotted name is looked up as its first two `split` parts, and fewer than two parts throw an index error; a bare name finds nothing exactly when no registered schema holds it, and otherwise a signature registered under it in some schema |
| FunctionModule.RegisterTwice | server/src/main/java/io/crate/expression/AbstractFunctionModule.java:57-61 | registering the same signature twice succeeds, then throws `IllegalStateException` |
| FunctionModule.RegisterThenLookup | server/src/main/java/io/crate/expression/AbstractFunctionModule.java:53-95 | a registered signature is found by its OID, by its qualified name and by its bare name |

## Left out

- The `CompletableFuture` machinery (`thenCompose`, `thenApply`, `whenComplete`, `failedFuture`) and the threads continuations run on. `loadNextBatch` is a synchronous step; a future's outcome is a `Result`.
- BatchIterators.CollectInto: an error is carried as thrown. The `CompletionException` wrapping that `thenApply`/`whenComplete` add to an error is not modelled.
- The real batch iterators, and `MappedForwardingBatchIterator`, are not part of this model. Their closing, `moveToStart`, `kill` and cancellation are left out too. The model's source is a fixed sequence of batches that may break after a given element.
- A throwing `currentElement` or `allLoaded` of the delegate is not modelled separately: a broken source throws from `moveNext`.
- Batches.BatchIterator.MoveNext: a break is placed after a given number of elements and is checked before the end of the batch. So a break at a batch boundary is raised by the last `moveNext` of the earlier batch, before any load. A real source that throws on the first `moveNext` after a `loadNextBatch`, or inside an empty batch, is not modelled. `Fold`'s fail-fast clause relies on this.
- BatchIterators.Collect: a supplier that throws escapes `collect` synchronously, without a future. In the model it is a `Failure` result, like a failed future.
- Batches.BatchIterator.LoadNextBatch: requires the loaded batch to be drained, since `fold` and `partition` only call it then.
- Batches.BatchIterator.LoadNextBatch: a load that fails (a failed future, or a synchronous throw at `BatchIterators.java:52`, which lies outside `fold`'s `try`) is not modelled. The model's loads fail only past the last batch, and `Fold` never makes that call.
- BatchIterators.MappedBatchIterator.CurrentElement: the mapper is total. A mapper that throws, which `fold`'s `try` would catch like a throwing step, is not modelled.
- `partition`'s supplier, accumulator and limiter are total functions. The accumulator returns the new state instead of mutating it in place. Aliasing between the emitted state and the caller's references is therefore not modelled.
- BatchIterators.PartitionIterator.constructor: requires `size > 0`. The code does not check it. With size 0 every `moveNext` emits a fresh empty state; with a negative size nothing is ever emitted.
- The `Collector`'s accumulator in the model returns the state instead of mutating it. The caller's view of the state while `collect` runs, through the shared object, is therefore not modelled.
- `map` and `partition` are modelled over the batch iterator of `batches.dfy` and cannot be nested in one another. Dafny traits are not used here. Likewise `Fold` and `Collect` drive only `Batches.BatchIterator`. No fold runs over a `MappedBatchIterator`. The `FoldLeftMap` law therefore holds for element sequences: with `MappedBatchIterator.Rest() == MapSeq(mapper, bi.Rest())`, folding what a mapped iterator has left is folding the delegate's rest with the mapper inside the step.
- `AbstractFunctionModule.configure` (Guice `MapBinder` plumbing) and `configureFunctions` are left out.
- `OidHash` and the way a signature's OID is computed are left out: the OID is a field of the signature.
- The iteration order of the `HashSet` of schemas is left out. The bare-name lookup may return the signature of any schema that has one.
- A signature's `toString` in the duplicate-registration message is left out: the exception carries the signature.
