# Verification models for the recurrent agents, the checkpoint engines and the batch plumbing

This Dafny project models the parts of the repository where a mistake would be silent: a batch agent that
must behave like many separate agents, weights that travel through two swapped buffers, padding that must
not be noticed, and weight layouts that must come back as they were. `dafny verify dfyconfig.toml` checks
everything.

## What is modelled

**The PI-Mem agents.** `Rollout` says what one sample goes through: chunks read against the global memory,
a merge of what is new, further passes until a pass brings nothing new or the passes are used up, then the
answer. `AsyncAgent` is the per-sample loop with its request windows, `BatchAgent` the class `MemoryAgent`
with the fields of the original, `BatchMachine` its state machine on values, `GenerationManager` the loop
over the turns, `FinalBatch` the extraction of the final rows. `Transcript` says once more, without the functions that
build requests, what a sample's requests have to show. The language model is an arbitrary function
of the sample, the ordinal of the request and the prompt, so every outcome of sampling is covered. The
main result is that projecting a run of the batch agent onto a sample gives exactly the prompts, the
memory and the answer row of the per-sample loop on this sample alone.

**Weight transfer.** `WeightChunks` cuts tensors into chunks and merges them, `BucketPacking` fills the two
swapped buffers, `NixlRelay` is the rank-to-rank relay and `NcclBroadcast` the broadcast, both as state
machines in which any rank may take the next step; `CheckpointDelivery` puts the pieces together from the
trainer's tensors to the tensors of every rollout rank. `NixlAgents` is the wiring of the chain and the
mailboxes of an agent. `KimiBuckets` and `KimiReceive` are the third engine: its packing by rank and its
double-buffered receive loop.

**Plumbing.** `GracefulPadding`, `Dispatch` and `SequenceAssembly` model padding, chunking, masks and
position ids; `Masks`, `TensorRows`, `Sequences`, `Arith` and `Text` hold what they share. `SerialAgent` is
the earlier serial agent in its batched and its per-sample form.

**Checkpoint layout.** `QkvLayout` and `GateUpLayout` pack and merge attention and gate/up weights across
tensor-parallel shards, `LayerNumbering` renumbers layers across pipeline stages. `BoxedAnswer` finds the
last boxed answer of a solution.

## Where the code does not do what one might expect

- A weight of zero bytes yields no chunk and so does not arrive: `WeightChunks.ExactIffNonEmpty`.
- Layer numbers have a gap exactly when a stage with layers comes after a stage without: `LayerNumbering.NoGapsIff`.
- The query/key/value merge is exact only if the tensor-parallel size divides the key/value heads: `QkvLayout.ExactIff`.
- The two serial agents differ as soon as a chunk is answered with the empty text, because one asks whether
  there is a memory and the other whether it is truthy: `SerialAgent.SameIffNoEmptyReply`.
- A chain with a single rollout rank does not pass the length assertions: `NixlAgents.PassesIff`.
- The loop in `get_notification` replaces the agent that it waits for. It takes the right notification whatever
  the polls bring if and only if nobody else can notify, or one has been fetched before:
  `NixlAgents.NeverOtherIff`, with the failing poll in `NixlAgents.TakesOther`. The chain has one notifying
  neighbour, so there the oldest notification is taken: `NixlAgents.TakesOldest`.
- The description of `graceful_padding` says that only the first group has no padding; the code leaves the
  first `bsz % group_nums` groups without padding, and the model follows the code.
- What is extracted can be unwrapped if and only if some box is written `\boxed ` with a space, or a brace
  follows the last `\boxed` directly: `BoxedAnswer.UnwrapsIff`. Two classes fail: boxes found through `\fbox`
  (`BoxedAnswer.FboxInput`), and boxes whose command is followed by something else before the first brace, as
  in `\boxed\frac{1}{2}` (`BoxedAnswer.FracInput`).

## Model

| member | source | states |
|---|---|---|
| Text.BuildMergeMemories | recurrent/impls/memory.py:224-241 | the text is the labelled previous memory, unless missing, blank or the placeholder, and one section for each memory that is not blank, in order, whose number reads as its place, with a blank line between; the placeholder if there is nothing |
| Text.TrimsIff | recurrent/impls/memory.py:313 | stripping is the one text left when white space, and nothing else, is taken from both ends |
| Text.DecimalReads | recurrent/impls/memory.py:239 | the number in a label is written in digits without a leading zero and reads back as the number |
| Text.JoinConcat | recurrent/impls/memory.py:241 | joining two lists of parts puts one blank line between them and loses none |
| Text.MergeTextAgrees | recurrent/impls/memory.py:445-460 | decoding and stripping first (batch agent) or passing the raw text and the placeholder (per-sample loop) gives the same payload |
| Rollout.HasChunkIffCounted | recurrent/impls/async_memory.py:192 | "is there context left" in the batch agent and the rounded-up chunk count in the loop agree for every step |
| Transcript.SlicePicked | recurrent/impls/memory.py:399-413 | slicing and removing pads keeps exactly the tokens between the bounds that are not pads, in order |
| Transcript.ChunkMessageShows | recurrent/impls/async_memory.py:200-217 | chunk request k shows the prompt, the memory, and the context from k * chunk_size to before (k + 1) * chunk_size |
| Transcript.ChunksAreTheContext | recurrent/impls/async_memory.py:199-203 | the chunks of a pass, put together, are the non-pad tokens of the first context_length ones, once each and in order |
| Transcript.RolloutIsRun | recurrent/impls/async_memory.py:186-356 | the specified rollout is such a run of passes, said without the functions that build requests and payloads |
| AsyncAgent.GatherInWindows | recurrent/impls/async_memory.py:220-253 | sending requests window by window gives every request its own answer in order, for every window size |
| AsyncAgent.ReadChunks | recurrent/impls/async_memory.py:197-278 | one pass over the chunks takes the rollout from the first chunk of the pass to its end, and convergence is "no informative reply" |
| AsyncAgent.RolloutSample | recurrent/impls/async_memory.py:186-405 | for every parallelism the rows are the record of a run: in each pass every chunk of the sample's own context, in order, against one memory; a merge of exactly the informative replies; the stripped merge reply as the next memory; the answer after a pass without news or the last one; and they are those of the specified rollout |
| BatchMachine.StartConsistent | recurrent/impls/memory.py:316-338 | the invariant holds at the start |
| BatchMachine.ReadyConsistent | recurrent/impls/memory.py:375-395 | choosing the next action keeps the invariant, and the step from chunks to merge inside it is unreachable |
| BatchMachine.FreshPassConverges | recurrent/impls/memory.py:382-392 | when no sample has a chunk to read at the start of an action, all samples converge and the answer follows |
| BatchMachine.MergedHaveNews | recurrent/impls/memory.py:445-452 | every sample that is sent to a merge has an informative reply from this pass |
| BatchMachine.ChunkTurnConsistent | recurrent/impls/memory.py:531-558 | a chunk turn keeps every sample on the track of its own rollout |
| BatchMachine.MergeTurnConsistent | recurrent/impls/memory.py:560-574 | so does a merge turn, into the next pass or into the answer |
| BatchMachine.FinalTurnConsistent | recurrent/impls/memory.py:520-524 | after the answers every sample has sent exactly the prompts of its rollout, and its pass number is in 1..max_passes |
| BatchMachine.AfterTurnConsistent | recurrent/impls/memory.py:518-577 | every turn keeps the invariant |
| BatchMachine.ReadySteady | recurrent/impls/memory.py:345-364 | choosing an action never un-converges a sample, changes its memory or resets its pass number |
| BatchMachine.AfterTurnSteady | recurrent/impls/memory.py:518-577 | over every turn, the final one included: a converged sample stays converged with the same memory, and a pass number is set at most once |
| BatchMachine.TurnUsesUp | recurrent/impls/memory.py:545-577 | every turn lowers a bound on the turns that are left |
| BatchAgent.MemoryAgent.constructor | recurrent/impls/memory.py:316-338 | the start state |
| BatchAgent.MemoryAgent.CheckPassConvergence | recurrent/impls/memory.py:345-358 | exactly the samples without an informative reply in this pass are marked, with the pass recorded once |
| BatchAgent.MemoryAgent.FinalizeSamplePassUsed | recurrent/impls/memory.py:360-364 | only unset entries get the number of the last pass |
| BatchAgent.MemoryAgent.ChunkAction | recurrent/impls/memory.py:375-437 | each active sample is asked about the current chunk of its own context against its own stripped memory, or the final turn comes when nothing is left to read |
| BatchAgent.MemoryAgent.MergeAction | recurrent/impls/memory.py:439-485 | one merge prompt for each sample that has not converged |
| BatchAgent.MemoryAgent.FinalAction | recurrent/impls/memory.py:487-515 | one answer prompt for every sample, on record as final |
| BatchAgent.MemoryAgent.Action | recurrent/impls/memory.py:366-373 | the prompts sent are those of the samples that take part, the indices and flags are on record, the invariant holds |
| BatchAgent.MemoryAgent.UpdateChunk | recurrent/impls/memory.py:531-558 | scattering the replies of a chunk turn gives the state that the machine has after it |
| BatchAgent.MemoryAgent.UpdateMerge | recurrent/impls/memory.py:560-574 | the same for a merge turn |
| BatchAgent.MemoryAgent.Update | recurrent/impls/memory.py:518-581 | the new state is the machine's state after the turn; which pass numbers the rows carry |
| GenerationManager.BatchRefinesAsync | recurrent/impls/async_memory.py:186-405 | the rows of a sample in a batch run equal those of the per-sample loop, the final row with its pass number |
| GenerationManager.RecordsAll | recurrent/generation_manager.py:162-191 | when the batch is done, the rows of each sample are the record of its own rollout |
| GenerationManager.LastRowFinal | recurrent/impls/memory.py:500-511 | the row of the final turn is a sample's last row and its only final one |
| GenerationManager.RowsOfIs | recurrent/impls/memory.py:420-431 | the rows of a sample are all rows with its index and no others, in order |
| GenerationManager.CountFinals | recurrent/generation_manager.py:194-195 | the final mask marks exactly one row for each sample |
| GenerationManager.RunLlmLoop | recurrent/generation_manager.py:140-201 | the whole batch run: the rows of every sample are the record of a run over its own context, and of its own rollout; the two row-count assertions; at most max_passes * (max chunks + 1) + 1 turns |
| FinalBatch.ReverseIndices | recurrent/utils.py:308-333 | fails exactly on duplicates; otherwise indexing with the result sorts the vector |
| FinalBatch.FinalSamples | recurrent/utils.py:343-344 | the selected final rows hold every sample exactly once |
| FinalBatch.ExtractFinal | recurrent/utils.py:336-346 | row i of the final batch is the last row of sample i |
| FinalBatch.RunAsyncLoop | recurrent/async_generation_manager.py:82-102 | gathering the per-sample outputs records every rollout with one final row each |
| FinalBatch.SameFinalBatch | recurrent/utils.py:336-346 | both managers record the same conversations for every sample, and the final batches are equal, for every parallelism |
| WeightChunks.SplitWeightChunks | verl/checkpoint_engine/base.py:495-521 | the chunks of every weight in order |
| WeightChunks.ChunksWellFormed | verl/checkpoint_engine/base.py:510-521 | every chunk is non-empty, fits into a bucket and describes its data |
| WeightChunks.MergeWeightChunks | verl/checkpoint_engine/base.py:524-563 | filling the merge buffer in place gives what merging chunk by chunk gives, failures included |
| WeightChunks.SplitThenMerge | verl/checkpoint_engine/base.py:495-563 | merging the chunks of a weight list gives back its non-empty weights, byte by byte, in order |
| WeightChunks.ExactIffNonEmpty | verl/checkpoint_engine/base.py:510 | the round trip is exact if and only if no weight is empty |
| BucketPacking.PackSound | verl/checkpoint_engine/nccl_checkpoint_engine.py:250-279 | packing keeps all chunks in order and no bucket exceeds the buffer |
| BucketPacking.PackTight | verl/checkpoint_engine/nccl_checkpoint_engine.py:252 | a bucket is closed only when the next chunk has no room in it |
| BucketPacking.ChunksApart | verl/checkpoint_engine/nccl_checkpoint_engine.py:274 | two chunks of one tensor never share a bucket |
| BucketPacking.DistinctNoClash | verl/checkpoint_engine/nccl_checkpoint_engine.py:274-277 | with distinct names the assertion on the bucket metadata never fails |
| BucketPacking.SendWeights | verl/checkpoint_engine/nccl_checkpoint_engine.py:244-294 | with two swapped arrays every bucket goes out with its chunks in place; it fails exactly if two chunks of one name meet in a bucket |
| CheckpointDelivery.UnpackPlaced | verl/checkpoint_engine/nccl_checkpoint_engine.py:345-347 | slicing a bucket by its metadata gives back the chunks put into it, whatever lies behind them |
| CheckpointDelivery.ReceiveChunks | verl/checkpoint_engine/nccl_checkpoint_engine.py:327-361 | the chunks of all buckets in order |
| CheckpointDelivery.UpdateWeights | verl/checkpoint_engine/base.py:495-563 | split, pack, transfer, unpack, merge: with distinct names no assertion fails and the non-empty weights arrive, for every bucket size |
| CheckpointDelivery.RelayEndToEnd | verl/checkpoint_engine/nixl_checkpoint_engine.py:371-525 | after any complete run of the relay every rollout rank merges exactly the trainer's non-empty weights |
| CheckpointDelivery.BroadcastEndToEnd | verl/checkpoint_engine/nccl_checkpoint_engine.py:230-361 | the same after any complete run of the broadcast |
| NixlRelay.StartInv | verl/checkpoint_engine/nixl_checkpoint_engine.py:385-392 | the relay's invariant holds at the start, for chains of any length |
| NixlRelay.StepKeepsInv | verl/checkpoint_engine/nixl_checkpoint_engine.py:393-519 | every step of every rank keeps it |
| NixlRelay.ReadsAreInUse | verl/checkpoint_engine/nixl_checkpoint_engine.py:211-233 | a read in flight is from a buffer that counts as in use |
| NixlRelay.NoLiveOverwrite | verl/checkpoint_engine/nixl_checkpoint_engine.py:465-500 | no step changes a buffer that the next rank may read or the local consumer is served from |
| NixlRelay.NeighboursClose | verl/checkpoint_engine/nixl_checkpoint_engine.py:468-500 | c[r+1] <= c[r] <= c[r+1] + 2 for the buckets read by neighbouring ranks |
| NixlRelay.KeysMatch | verl/checkpoint_engine/nixl_checkpoint_engine.py:170-174 | the notification a rank waits for carries the key of its pending offer |
| NixlRelay.Delivery | verl/checkpoint_engine/nixl_checkpoint_engine.py:484-515 | what a rank has yielded is always a beginning of what rank 0 packed, and all of it when the rank is done |
| NixlRelay.NoDeadlock | verl/checkpoint_engine/nixl_checkpoint_engine.py:393-519 | while some rank is not done, some rank can take a step |
| NixlRelay.StepProgress | verl/checkpoint_engine/nixl_checkpoint_engine.py:393-519 | every step raises a measure of what is done |
| NixlRelay.RelayDelivers | verl/checkpoint_engine/nixl_checkpoint_engine.py:371-519 | every run is bounded, and when no step is possible every rank is done and has yielded exactly what rank 0 packed |
| NcclBroadcast.StartInv | verl/checkpoint_engine/nccl_checkpoint_engine.py:244-250 | the invariant of the broadcast holds at the start, for any number of receivers |
| NcclBroadcast.StepKeepsInv | verl/checkpoint_engine/nccl_checkpoint_engine.py:250-361 | every step of every process keeps it |
| NcclBroadcast.NoWriteInFlight | verl/checkpoint_engine/nccl_checkpoint_engine.py:256-279 | no step writes the buffer of a broadcast that has not left towards every receiver |
| NcclBroadcast.NoWriteWhileServing | verl/checkpoint_engine/nccl_checkpoint_engine.py:333-361 | no step writes the buffer that a receiver yields from |
| NcclBroadcast.ReceiversClose | verl/checkpoint_engine/nccl_checkpoint_engine.py:256-268 | of two receivers one is ahead by at most one bucket and what is on the wire to the other |
| NcclBroadcast.MetadataMatches | verl/checkpoint_engine/nccl_checkpoint_engine.py:82-93 | however far a receiver lags, the bucket it takes is the one that the metadata it has heard describes |
| NcclBroadcast.Delivery | verl/checkpoint_engine/nccl_checkpoint_engine.py:344-361 | what a receiver has yielded is a beginning of what rank 0 packed, and all of it at the end |
| NcclBroadcast.NoDeadlock | verl/checkpoint_engine/nccl_checkpoint_engine.py:250-361 | while someone is not done, some process can take a step |
| NcclBroadcast.StepProgress | verl/checkpoint_engine/nccl_checkpoint_engine.py:250-361 | every step raises a measure of what is done |
| NcclBroadcast.BroadcastDelivers | verl/checkpoint_engine/nccl_checkpoint_engine.py:230-361 | every run is bounded, and when no step is possible every receiver has yielded exactly what rank 0 packed |
| NixlAgents.PassesIff | verl/checkpoint_engine/base.py:380-383 | the length assertions pass if and only if there is a trainer and there are at least two rollout ranks |
| NixlAgents.InitPassesIff | verl/checkpoint_engine/nixl_checkpoint_engine.py:318-331 | in a group of two or more: the assertions hold if and only if exactly the first rank lacks a previous agent and the last one a next |
| NixlAgents.Chained | verl/checkpoint_engine/nixl_checkpoint_engine.py:298-304 | each rollout rank's neighbours are the ranks before and after it, and its assertions pass |
| NixlAgents.HeadOfChain | verl/checkpoint_engine/nixl_checkpoint_engine.py:290-296 | the first trainer heads the chain, the other trainers stay out of it |
| NixlAgents.Mailbox.ReadMessage | verl/checkpoint_engine/nixl_checkpoint_engine.py:128-132 | the oldest message of the wanted sender, with those of the others kept in order |
| NixlAgents.Mailbox.GetNotification | verl/checkpoint_engine/nixl_checkpoint_engine.py:134-140 | which queue is taken from when the loop variable replaces the agent waited for |
| NixlAgents.TakesOldest | verl/checkpoint_engine/nixl_checkpoint_engine.py:134-140 | with one notifying neighbour it is the oldest notification of that neighbour, and none is lost |
| NixlAgents.NeverOtherIff | verl/checkpoint_engine/nixl_checkpoint_engine.py:134-140 | the notification taken is that of the agent waited for, whatever the polls bring, if and only if nobody else can notify or one was fetched before |
| NixlAgents.TakesOther | verl/checkpoint_engine/nixl_checkpoint_engine.py:137-140 | a poll that brings the awaited agent's notification before that of any other agent leads to the other one |
| KimiBuckets.GetBuckets | verl/checkpoint_engine/kimi_checkpoint_engine.py:37-63 | the rank's tensors in order, each bucket within the cap or a single tensor, closed only when the next tensor does not fit |
| KimiBuckets.SharesCover | verl/checkpoint_engine/kimi_checkpoint_engine.py:49-51 | the shares of all ranks hold every tensor exactly once |
| KimiBuckets.BucketsCover | verl/checkpoint_engine/kimi_checkpoint_engine.py:37-63 | the buckets of all ranks together hold every weight exactly once |
| KimiReceive.GroupByReceiver | verl/checkpoint_engine/kimi_checkpoint_engine.py:104-110 | the loop builds the groups in the order of first insertions, and the length of the longest |
| KimiReceive.GroupsPartition | verl/checkpoint_engine/kimi_checkpoint_engine.py:104-110 | the groups partition the buckets by receiver rank, each in order, with one list per rank; nothing is lost |
| KimiReceive.RanksInOrder | verl/checkpoint_engine/kimi_checkpoint_engine.py:104-108 | the ranks take their turns in the order of their first buckets |
| KimiReceive.EveryBucketOnce | verl/checkpoint_engine/kimi_checkpoint_engine.py:114-125 | the transposed loop visits every bucket exactly once |
| KimiReceive.VisitsInOrder | verl/checkpoint_engine/kimi_checkpoint_engine.py:114-125 | the visits go round by round, and rank by rank within a round |
| KimiReceive.ContentIs | verl/checkpoint_engine/kimi_checkpoint_engine.py:143-152 | what is read from a bucket are the named tensors it was filled with, each with its own bytes |
| KimiReceive.YieldsLast | verl/checkpoint_engine/kimi_checkpoint_engine.py:143-152 | the tensors of the last visit are read correctly whatever happens in the other half of the buffer |
| KimiReceive.Visit | verl/checkpoint_engine/kimi_checkpoint_engine.py:124-155 | one visit yields the bucket before from its half while the other half holds anything, then holds the new bucket |
| KimiReceive.ReceiveTensor | verl/checkpoint_engine/kimi_checkpoint_engine.py:66-166 | what is yielded are the tensors that the buckets were filled with, in the order of the visits, each exactly once, for every rank; it fails exactly for an empty bucket list |
| KimiReceive.YieldsEverything | verl/checkpoint_engine/kimi_checkpoint_engine.py:114-166 | every tensor that some bucket was filled with is yielded exactly once, with its own bytes |
| QkvLayout.GatherShards | scripts/legacy_model_merger.py:542-557 | the loops over shards and query groups collect the pieces, or fail on the first piece of the wrong height |
| QkvLayout.MergeAcrossTp | scripts/legacy_model_merger.py:529-557 | the merged query, key and value rows, failures included |
| QkvLayout.SplitSucceedsIff | scripts/legacy_model_merger.py:536-543 | the asserted conditions, and a query group for every shard, are exactly what the sizes need |
| QkvLayout.MergesIff | scripts/legacy_model_merger.py:536-552 | merging succeeds if and only if these hold and every piece has the computed height |
| QkvLayout.RoundTrip | scripts/converter_hf_to_mcore.py:155-161 | packing by query group, cutting into shards and merging gives back q, k and v whenever the size divides the key/value heads |
| QkvLayout.OtherwiseNotExact | scripts/legacy_model_merger.py:542-552 | otherwise the merger fails, or the first key row is found among the query rows, at row dim * heads per group |
| QkvLayout.ExactIff | scripts/legacy_model_merger.py:529-557 | exact if and only if the tensor-parallel size divides the key/value heads |
| GateUpLayout.MergeAcrossTp | scripts/legacy_model_merger.py:518-528 | the halves of all shards collected; it fails exactly where `chunk(2)` does not give two halves |
| GateUpLayout.MergesIff | scripts/legacy_model_merger.py:522-523 | merging fails exactly when some shard has a single row |
| TensorRows.CutHeights | scripts/legacy_model_merger.py:544 | chunking gives pieces of one height, except that the last may be lower |
| TensorRows.CeilingIs | scripts/legacy_model_merger.py:544 | that height is the quotient rounded up |
| GateUpLayout.RoundTrip | scripts/legacy_model_merger.py:518-528 | shards that hold gate before up rows merge to the two weights, for every number of ranks |
| GateUpLayout.ContiguousIff | scripts/converter_hf_to_mcore.py:188 | the converter's concatenation cut row by row merges back if and only if there is one rank |
| LayerNumbering.MergeStateDicts | scripts/legacy_model_merger.py:608-658 | the dictionary has exactly the names written to, layers numbered from the layers of the stages visited before, each with the tensor of its last write: q, k, v, gate and up under their own names; extra state and a tied output layer are not written |
| LayerNumbering.ReplaceOnly | scripts/legacy_model_merger.py:647-651 | replacing the only occurrence changes it and nothing before or behind it |
| LayerNumbering.SplitSnoc | scripts/legacy_model_merger.py:642-651 | writing the parts of one key is merging the entries it splits into, and a split changes no layer count |
| LayerNumbering.MergedIs | scripts/legacy_model_merger.py:615-656 | merging stage by stage gives that dictionary, for every grid of stages |
| LayerNumbering.PartsKept | scripts/legacy_model_merger.py:632-651 | every query, key, value, gate or up part of every layer is found under the global number and its own name, as long as no two parts of one layer share a name |
| LayerNumbering.VisitedAt | scripts/legacy_model_merger.py:615-616 | virtual ranks are visited outermost: stage (v, r) is number v * pp_size + r |
| LayerNumbering.InVisitingOrder | scripts/legacy_model_merger.py:631-632 | global numbers are ordered as the stages are visited, so no two layers share one, gaps or not |
| LayerNumbering.LayersKept | scripts/legacy_model_merger.py:632-653 | every layer parameter is in the merged dictionary under its global number: none is overwritten |
| LayerNumbering.OnlyLayers | scripts/legacy_model_merger.py:632-653 | and every layer key of the merged dictionary is one of those |
| LayerNumbering.NoGapsIff | scripts/legacy_model_merger.py:656 | the numbers are 0..total-1 if and only if no stage with layers is visited after one without |
| GracefulPadding.GroupMaskIs | recurrent/utils.py:174-181 | each group has no padding, or exactly its first row |
| GracefulPadding.Balanced | recurrent/utils.py:169-181 | all groups have the same number of rows, and their real rows differ by at most one |
| GracefulPadding.MaskCounts | recurrent/utils.py:169-189 | the mask has exactly bsz real rows and a length that the groups divide |
| GracefulPadding.SelectPrefix | recurrent/generation_manager.py:105-137 | selecting the real rows of the padded batch gives the batch, for every mask with as many real rows |
| GracefulPadding.PadsArePadding | recurrent/utils.py:186-187 | every row that is not real gets index -1 and so is the padding row |
| GracefulPadding.PaddingIsTransparent | recurrent/generation_manager.py:86-138 | padding, generating row by row on the workers and selecting is generating on the batch itself |
| Dispatch.PadToDivisor | verl/protocol.py:74-99 | the loop ends, the size becomes divisible with less than the divisor added, and padded row j is row j mod n |
| Dispatch.ChunkIsEqual | verl/protocol.py:864-903 | chunking succeeds exactly for a divisible batch, and then gives as many equal chunks as asked for, which lose nothing |
| Dispatch.SplitConcat | verl/protocol.py:905-914 | split followed by concat is the identity for every size |
| Dispatch.DispatchCollect | verl/protocol.py:74-106 | pad, chunk, apply per chunk, concatenate, unpad equals applying the function to the rows |
| SequenceAssembly.WriteMasks | recurrent/utils.py:228-241 | the masks written in place mark the last columns of each row on left padding and the first ones on right padding, as many as the list is long |
| SequenceAssembly.PositionsCount | recurrent/utils.py:269-271 | for every mask the attended columns have positions 0, 1, 2, ... in order |
| SequenceAssembly.PositionsBefore | recurrent/utils.py:269-271 | columns before the first attended one have position 0 |
| SequenceAssembly.PositionAt | recurrent/utils.py:269-271 | every column, attended or not, has one less than the number of attended columns up to it |
| SequenceAssembly.RowPlaced | recurrent/async_generation_manager.py:126-162 | the prompt ends at the common prompt width, the response without its start begins there, these columns are attended and all others hold the pad token |
| SequenceAssembly.RowSelects | recurrent/async_generation_manager.py:126-169 | the attended tokens of a row are the prompt and the response without its start, with consecutive positions, and the response mask lines up |
| SequenceAssembly.ConcatOutput | recurrent/async_generation_manager.py:113-195 | every conversation gets a row that selects and places it like this, in order, all rows over the columns of the longest prompt and the longest response; only the first response is checked for the start |
| SequenceAssembly.WithStart | recurrent/async_generation_manager.py:117-120 | the row selects the prompt and what follows the start if and only if the response begins with the start |
| BoxedAnswer.RFindIff | taskutils/memory_data/hotpotqa_verifier.py:64-68 | the last occurrence and no other |
| BoxedAnswer.LastBoxedOnlyString | taskutils/memory_data/hotpotqa_verifier.py:63-90 | on every string: after the last box with a space up to the next dollar sign or the end; else from the last `\boxed`, else from the last `\fbox`, to the brace that closes the first one opened; else nothing |
| BoxedAnswer.BeforeLaw | taskutils/memory_data/hotpotqa_verifier.py:66 | the part before the first dollar sign, or all of it when there is none |
| BoxedAnswer.RemovesIff | taskutils/memory_data/hotpotqa_verifier.py:49-60 | unwrapping gives an answer if and only if the text is this answer in one of the two boxes |
| BoxedAnswer.CloseIff | taskutils/memory_data/hotpotqa_verifier.py:75-83 | the scan stops at a position if and only if the counter is 0 there and at no closing brace before |
| BoxedAnswer.ScanIff | taskutils/memory_data/hotpotqa_verifier.py:75-83 | the scan ends right behind the answer if and only if the answer is balanced |
| BoxedAnswer.UnboxIff | taskutils/memory_data/hotpotqa_verifier.py:49-90 | extracting finds exactly the boxed answer if and only if it is balanced, and unwrapping gives it back |
| BoxedAnswer.UnboxWithSpace | taskutils/memory_data/hotpotqa_verifier.py:50-53 | the notation with a space ends at the next dollar sign and unwraps to the answer |
| BoxedAnswer.UnwrapsIff | taskutils/memory_data/hotpotqa_verifier.py:49-90 | for every solution in which a box is found: it unwraps if and only if some box is written with a space, or a brace follows the last `\boxed` directly |
| BoxedAnswer.FboxStaysBoxed | taskutils/memory_data/hotpotqa_verifier.py:67-70 | a box found through `\fbox` fails to unwrap |
| BoxedAnswer.FboxInput | taskutils/memory_data/hotpotqa_verifier.py:55-57 | `\fbox{x}` is found and fails to unwrap |
| BoxedAnswer.FracInput | taskutils/memory_data/hotpotqa_verifier.py:55-83 | in `\boxed\frac{1}{2}` the first group ends the scan, and what is found fails to unwrap |
| SerialAgent.RolloutOne | memagent/impls/async_memory.py:146-334 | the requests show every chunk of the sample's own context in order, each with the reply before it as memory, then the answer; the assertion fails exactly for a context longer than max_chunks * chunk_size |
| SerialAgent.SameIffNoEmptyReply | memagent/impls/async_memory.py:183 | the two forms make the same requests if and only if no chunk is answered with the empty text |
| SerialAgent.SameUntil | memagent/impls/async_memory.py:183 | as long as no chunk is answered with the empty text, both forms have the same memory and the same requests |
| SerialAgent.RequestsAreRun | memagent/impls/memory.py:226-243 | the requests of either form are such a run over the sample's own context |
| SerialAgent.ReadsTheContext | memagent/impls/memory.py:226-240 | the chunks that the requests of a run show are, put together, the first context_length tokens without pads |
| SerialAgent.AlignedBudget | memagent/impls/async_memory.py:42-73 | after the alignment the prompt budget is max_chunks * chunk_size; a given prompt budget has grown by less than a chunk, otherwise max_chunks is kept |
| SerialAgent.RolloutWithinBudget | memagent/impls/async_memory.py:165-169 | a context within the aligned budget never trips the assertion |
| SerialAgent.NextRound | memagent/impls/memory.py:258-264 | a round of the batch takes every active sample one chunk further and leaves the others alone |
| SerialAgent.BatchedSerialAgent.Action | memagent/impls/memory.py:193-256 | the messages and records of a turn; the final turn comes exactly when no sample has context left |
| SerialAgent.BatchedSerialAgent.Update | memagent/impls/memory.py:258-264 | replies become the memories of the active samples only, and the answers of the final turn do not |
| SerialAgent.RunBatched | memagent/impls/memory.py:181-280 | every sample makes exactly the requests of its own serial run over its own context, whatever else is in the batch, with one final row each in the last turn |

## Left out

- BatchAgent.MemoryAgent.Action: a message is modelled by the fields that go into its template; the template text, the chat template, the tokenizer, sampling parameters and the input-length budgets (recurrent/impls/memory.py:262-313) are not.
- BatchAgent.MemoryAgent.Update: replies are texts; that unpadding, removing the end token and decoding give the same text that the chat interface returns is assumed.
- BatchAgent.MemoryAgent: numpy vectors are sequences that the methods reassign, so aliasing between them is not captured.
- GenerationManager.BatchRefinesAsync: the pass numbers of rows that are not final are not compared, because the two agents record different ones by design.
- AsyncAgent.RolloutSample: errors from the model client, traces and timers are left out; every request returns a reply.
- Text.BuildMergeMemories: the branch for absent entries is left out, because both callers filter them first.
- NixlRelay: a bucket is the list of its chunks and a transfer copies a whole bucket when it completes, whatever the buffer holds meanwhile; the bytes inside a bucket are in BucketPacking. ZeroMQ, NCCL and RDMA are assumed to deliver reliably and in order.
- NcclBroadcast: how the collective moves data among the receivers is not modelled; rank 0's wait returns when the bucket has left its buffer towards every receiver, and the wire keeps order and loses nothing.
- WeightChunks.MergeWeightChunks: shape and dtype are one byte count. A small tensor is yielded as a view of the receive buffer; the model copies it, so a consumer that keeps the view beyond the next bucket is not covered.
- NixlAgents.Mailbox.GetNotification: the original waits for ever where the model returns nothing.
- KimiReceive.ReceiveTensor: buckets are assumed to fit into half of the buffer, which the library that makes them is asked for. That library is not part of this model, and tensors are taken to lie one behind the other in a bucket. Its peer-to-peer store is left out.
- KimiBuckets.GetBuckets: names are assumed to be distinct; conversion to the rollout type is left out.
- QkvLayout.RoundTrip: tensors are lists of rows, and the shards are equal cuts of the packed rows; biases have the same layout and need no separate model.
- GateUpLayout.ContiguousIff: states the layout only; the converter itself runs with one tensor-parallel rank.
- LayerNumbering.MergeStateDicts: the table that maps parameter names and the checks on unknown keys are left out; keys carry the mapped names, and their tensors are already merged across ranks.
- Dispatch.DispatchCollect: automatic padding inside `chunk` and the merging of meta information are left out.
- GracefulPadding.Generate: the padding row is arbitrary and generation is one function of the row.
- SequenceAssembly.ConcatOutput: lengths of response and response mask are assumed to agree; tokenization of conversations is left out.
- BoxedAnswer: `strip_string` and the comparison of answers are left out.
- SerialAgent.AlignBudget: the original divides as floating point before rounding up, which is exact for lengths below 2^53.
- The Mooncake engine: its completion mark is written into a live buffer, so exact delivery is not an invariant of it.
- The HCCL engine: the same double buffer without chunking.
- `memagent/utils.py` and `memagent/generation_manager.py`: the same code as under `recurrent`.
- Servers, data preparation, benchmarks, viewers and expert-file tools: input and output around external libraries.
