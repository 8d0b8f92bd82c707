# verl: weight transfer, activation offloading, rollout bookkeeping and tensor layout

This project models, in Dafny, the parts of verl in which several steps, buffers or processes have to
agree, and proves what they promise:

- the checkpoint engines that move model weights from a trainer to rollout workers: chunking and
  merging (`Shapes`, `Weights`, `Merging`), packing into buckets (`Packing`, `PackingLaws`), the double-buffered senders
  (`Sending`, `SendNames`, `SendLoops`), the NCCL broadcast (`Nccl`, `NcclProgress`), the NIXL chain (`Nixl`,
  `NixlProgress`, `NixlAgent`) and the KIMI broadcast schedule (`Kimi`, `KimiRuns`, `KimiShares`);
- activation offloading over whole forward and backward passes (`OffloadModel`, `OffloadHandler`,
  `OffloadRuns`, `OffloadEarly`);
- the rollout protocol around the replay buffer and the keys of its outputs (`ReplayBuffer`, `Rollout`,
  `RolloutTrace`, `Keys`, `SessionFinal`);
- the arithmetic of pipeline stages, layer numbers and the fused query-key-value layout (`Planner`,
  `Renumber`, `Qkv`);
- `DataProto` as a column store with the metrics of its meta information (`DataProto`, `Metrics`,
  `DataProtoPadding`, `DataProtoIndexing`, `DataProtoConcat`), the bounding-box resize (`BoundingBox`), the shared-directory
  job queue (`JobQueue`, `JobWorker`) and grouped statistics (`Groupwise`).

`Arith`, `Reals`, `Counting`, `Dictionaries`, `Options` and `PythonSlices` hold what several modules use.

Concurrent protocols are state machines: a step is one operation of one process, a run is any list of
enabled steps, and the theorems speak about every reachable state. A transfer reads its source one byte
at a time, in any order, between its start and its completion, so that "the buffer did not change
meanwhile" is something the proofs establish. The broadcasts may buffer: a byte can be read for a rank
that has not begun the operation. That they make progress is proved of every reachable state even for a
transport that reads no byte before all ranks have begun. Code that works by loops and
assignments is a method or a class, proved against a function or relation; the lemmas are about those.

What callers have to provide is what the code relies on: weights with distinct names, and with at least
one byte for the engines that split them, `bucket_size >= 1`, at least two rollout ranks for NIXL, no more
offloaded groups than layers, equal elements in tensors of one group that share a storage key, and uids
without underscores, as `uuid4` makes them. Where one of these is exactly the dividing line, a lemma says so:
`Weights.RoundTripNeedsBytes`, `NcclProgress.FinishesExactly`, `NixlProgress.FinishesExactly`,
`SendLoops.HcclRoundTrip`, `KimiShares.NoneIsLost`, `NixlAgent.ChainNeedsTwo`, `OffloadRuns.BackExactly`,
`Renumber.ShiftedExactly`, `Planner.EnoughIsTight`.

Places where the code does something its reader might not expect, each stated as a lemma or in a contract,
with the exact condition or an input that shows it, most with both:

- Concatenating the chunks of a batch turns its metrics into lists, even for a single chunk. The data comes
  back exactly when the metrics are absent or an empty dictionary (`DataProto.ConcatUndoesChunk`,
  `DataProto.ConcatUndoesSplit`, `DataProto.MetricsBecomeLists`), and padding followed by unpadding is the
  identity exactly then or when no rows are added (`DataProtoPadding.PadThenUnpad`).
- `get_notification` of the NIXL agent reuses the variable that holds the name asked for, so with a second
  notifier it can answer for another rank (`NixlAgent.OthersCanAnswer`). The answer is for the rank asked
  for exactly when a notification of it is already there or the first delivery ends with one of it
  (`NixlAgent.Agent.GetNotification`), which the chain guarantees (`NixlAgent.ChainAnswers`).
- A chunk of a `DataProtoFuture` that is itself a chunk forgets the first choice; what it gives is the chunk
  of the chunk exactly when the first choice was of everything or there are no rows
  (`DataProtoPadding.SecondChunkForgetsFirst`, `DataProtoPadding.BothRowsInsteadOfOne`).
- The comment on `num_offload_group` allows as many groups as layers; then each group but the first is copied
  out before its tensors are pushed. In every run each group is copied out only after its pushes exactly
  when there are fewer groups than layers, or a single group (`OffloadEarly.CopyOutOrderExactly`). Pops return
  what was pushed all the same (`OffloadEarly.EveryRunIsFaithful`), because the tensors stay on the device.
- `build_topology` of NIXL does not build a chain for a single rollout rank (`NixlAgent.ChainNeedsTwo`).
- `ReplayBuffer.sample` called with a batch size returns at once with nothing, although its documentation
  names the argument as a batch size (`ReplayBuffer.BatchSizeGivesNothing`).
- Two weights of one name in one bucket end the NCCL or NIXL sender with a failed assertion, and the receivers
  wait for ever. A transfer can be completed exactly when the names within each bucket differ
  (`NcclProgress.FinishesExactly`, `NixlProgress.FinishesExactly`, `NcclProgress.NamesakesNeverArrive`). HCCL goes
  on, and delivers the weights exactly in the same case (`SendLoops.HcclRoundTrip`).
- A bucket of `ckpt_get_named_tensor_buckets` is a dictionary, so it loses a weight exactly when two weights of
  one name are put into it (`KimiShares.NoneIsLost`, `KimiShares.LosesTheFirst`).
- A pipeline stage without layers shifts the numbers of later stages by one; the numbers are right exactly when
  no such stage comes before one that has layers (`Renumber.ShiftedExactly`).
- Growing a valid box rounds outwards, which can push one that is nearly a hundred times as long as wide past
  that ratio. Where the image has room a small request is refused exactly then: when the grown short side begins
  at a whole coordinate and the long one is rounded to more than 2800 (`BoundingBox.MaybeResize`,
  `BoundingBox.RoomExactly`, `BoundingBox.RefusedByRounding`).

## Model

| member | source | states |
|---|---|---|
| Weights.SplitWeightChunks | verl/checkpoint_engine/base.py:476-490 | the generator's loops yield, weight after weight, the pieces of at most `bucket_size` bytes that the reference function gives |
| Weights.SplitFits | verl/checkpoint_engine/base.py:479-490 | every chunk has between 1 and `bucket_size` bytes and metadata that agree with its bytes |
| Weights.Merger.Feed | verl/checkpoint_engine/base.py:505-532 | one round of the merging loop, on the buffer written in place, takes the merging state and the yielded weights to those of the specification, or fails with its assertion |
| Weights.MergeWeightChunks | verl/checkpoint_engine/base.py:505-532 | the whole loop computes the specified merge for any chunks, whatever the newly allocated memory holds |
| Weights.MergeUndoesSplit | verl/checkpoint_engine/base.py:464-532 | for every bucket size, merging the chunks of non-empty weights yields exactly those weights, and no assertion fires |
| Weights.RoundTripNeedsBytes | verl/checkpoint_engine/base.py:479-490 | the round trip holds if and only if no weight is empty |
| Weights.MergePrefix | verl/checkpoint_engine/base.py:505-532 | what is merged from the first chunks only is a prefix of the weights, without a failed assertion |
| Shapes.NumelConcat | verl/checkpoint_engine/base.py:508-508 | the number of elements of a shape in two parts is the product of those of both |
| Shapes.NumelCounts | verl/checkpoint_engine/base.py:508-508 | a shape has as many elements as indices |
| Merging.ValidCounts | verl/checkpoint_engine/base.py:508-508 | the byte size that the merger recomputes is the number of indices times the size of an element |
| Merging.AnyShapeMerges | verl/checkpoint_engine/base.py:464-532 | a weight of any shape with that many bytes survives splitting and merging |
| Merging.MatrixMerges | verl/checkpoint_engine/base.py:508-514 | a matrix whose m * n * itemsize bytes fit the bucket is yielded from its one chunk |
| Merging.MergesExactly | verl/checkpoint_engine/base.py:505-532 | where chunks of one name have one shape and type, the merger accepts a list of chunks and yields given weights if and only if the list carries them: for each a whole chunk if it fits a bucket, and otherwise consecutive pieces up to its end |
| Packing.PackLaidOut | verl/checkpoint_engine/nccl_checkpoint_engine.py:250-279 | in every bucket the chunks lie one after the other from offset 0, within `bucket_size`, and no closed bucket is empty |
| Packing.PackKeepsAll | verl/checkpoint_engine/nccl_checkpoint_engine.py:250-293 | the buckets together hold all chunks, each once and in order |
| Packing.MergeIgnoresPlace | verl/checkpoint_engine/base.py:505-532 | where a chunk lay in its bucket makes no difference to the merger |
| Packing.MergeUndoesPacking | verl/checkpoint_engine/nccl_checkpoint_engine.py:250-279 | merging what the buckets hold yields the weights that were split and packed |
| Packing.UnpackHeld | verl/checkpoint_engine/nccl_checkpoint_engine.py:345-347 | slicing a buffer by the metadata of a bucket it holds gives the chunks of that bucket |
| PackingLaws.NameIsFresh | verl/checkpoint_engine/nccl_checkpoint_engine.py:274-274 | the assertion that a name is not yet in the bucket holds whenever a chunk still fits |
| PackingLaws.BucketNames | verl/checkpoint_engine/nccl_checkpoint_engine.py:250-279 | for weights with distinct names, two chunks of one weight never share a bucket |
| PackingLaws.PackIsGreedy | verl/checkpoint_engine/nccl_checkpoint_engine.py:252-271 | two neighbouring buckets never fit into one |
| PackingLaws.NoEmptyBucket | verl/checkpoint_engine/nccl_checkpoint_engine.py:250-293 | if there is more than one bucket, none of them is empty |
| PackingLaws.FewBuckets | verl/checkpoint_engine/nccl_checkpoint_engine.py:250-293 | n buckets, n >= 2, satisfy (n - 1) * bucket_size < 2 * total bytes |
| PackingLaws.FewBucketsForWeights | verl/checkpoint_engine/nccl_checkpoint_engine.py:250-293 | the same in the bytes of the weights that were split |
| Sending.SendFrame.HandOut | verl/checkpoint_engine/nccl_checkpoint_engine.py:259-271 | handing a bucket out records the buffer as it is and swaps the two buffers in place |
| Sending.SendFrame.PlaceChunk | verl/checkpoint_engine/nccl_checkpoint_engine.py:273-279 | with the two assertions as preconditions, the chunk is written at the offset and nothing else changes |
| Sending.SendFrame.Store | verl/checkpoint_engine/hccl_checkpoint_engine.py:277-285 | without the assertion on the name the chunk is written at the offset, and the metadata under its name is replaced |
| Sending.FillInv | verl/checkpoint_engine/nccl_checkpoint_engine.py:273-279 | after placing a chunk the memory tracks the packing of one chunk more |
| Sending.FlushInv | verl/checkpoint_engine/nccl_checkpoint_engine.py:259-271 | a flush hands out exactly the open bucket of the packing |
| Sending.LogPrefix | verl/checkpoint_engine/nccl_checkpoint_engine.py:250-294 | the parcels handed out so far hold the first buckets of the packing, all of them once the last is out |
| Sending.MergeReceived | verl/checkpoint_engine/nccl_checkpoint_engine.py:304-305 | merging any prefix of what was handed out yields a prefix of the weights, and the whole yields all of them |
| SendNames.FreshInMemory | verl/checkpoint_engine/nccl_checkpoint_engine.py:274-274 | where the names within each bucket differ, the assertion that a name is not yet in the bucket holds whenever the next chunk fits |
| SendNames.KeptMeansDiffer | verl/checkpoint_engine/nccl_checkpoint_engine.py:250-294 | if the assertion held throughout, then the names within each bucket differ |
| SendNames.NamesakesShare | verl/checkpoint_engine/nccl_checkpoint_engine.py:250-279 | two weights of a byte each under one name are put into one bucket |
| SendLoops.SendChunks | verl/checkpoint_engine/nccl_checkpoint_engine.py:247-293 | the loop over chunks, on two arrays, succeeds if and only if the names within each bucket differ, and then hands out buffers that hold the specified buckets, of which only the last is marked last; the assertion on the size never fires |
| SendLoops.HcclSend | verl/checkpoint_engine/hccl_checkpoint_engine.py:247-299 | for any weights it succeeds if and only if every one fits a bucket, and then hands out the buckets of the weights as they are, empty ones included, each listing the last weight of every name |
| SendLoops.HcclRoundTrip | verl/checkpoint_engine/hccl_checkpoint_engine.py:340-361 | unpacking those buckets by recomputed sizes yields the weights, in order, if and only if the names within each bucket differ |
| SendLoops.SameBuckets | verl/checkpoint_engine/hccl_checkpoint_engine.py:250-285 | where every weight fits a bucket, the engines that split weights fill the same buckets if and only if no weight is empty |
| Nccl.EndToEnd | verl/checkpoint_engine/nccl_checkpoint_engine.py:244-361 | in every interleaving what a receiver has merged is a prefix of the weights sent, no assertion of the merger fires, and a receiver that returned has yielded exactly the weights, whatever their names |
| Nccl.ViewsAreStable | verl/checkpoint_engine/nccl_checkpoint_engine.py:333-356 | a view handed out while the next broadcast arrives shows the chunk that was packed |
| Nccl.SenderKeepsInFlight | verl/checkpoint_engine/nccl_checkpoint_engine.py:252-279 | no step of the sender writes the buffer that is being broadcast |
| Nccl.OneBroadcastAtATime | verl/checkpoint_engine/nccl_checkpoint_engine.py:255-294 | no rank ever has two broadcasts in flight, and the buffer in flight holds what it held at the start |
| Nccl.StepKeepsInv | verl/checkpoint_engine/nccl_checkpoint_engine.py:77-99 | every step of any rank or operation keeps the invariant that ties buffers, bytes on the wire and parcels |
| NcclProgress.RunsAreFinite | verl/checkpoint_engine/nccl_checkpoint_engine.py:244-361 | no run has more steps than a number computed from its start |
| NcclProgress.NoDeadlock | verl/checkpoint_engine/nccl_checkpoint_engine.py:244-361 | where the names within each bucket differ, in every reachable state some step is enabled unless all ranks have returned, even if no byte is read before all receivers have begun the broadcast |
| NcclProgress.MeetingRunIsRun | verl/checkpoint_engine/nccl_checkpoint_engine.py:90-99 | the runs of a transport that buffers nothing are runs, so that everything proved of runs holds of them |
| NcclProgress.RunsToTheEnd | verl/checkpoint_engine/nccl_checkpoint_engine.py:244-361 | then every state of a run can be carried on until all ranks have returned, by a transport that buffers nothing |
| NcclProgress.SomeRunDelivers | verl/checkpoint_engine/nccl_checkpoint_engine.py:244-361 | for any non-empty weights of different names and any number of receivers there is a complete run, of a transport that buffers nothing, after which each has yielded exactly the weights |
| NcclProgress.NameAssertionHolds | verl/checkpoint_engine/nccl_checkpoint_engine.py:274-274 | where the names within each bucket differ, the assertion on the name holds in every reachable state in which the next chunk is placed |
| NcclProgress.FinishesExactly | verl/checkpoint_engine/nccl_checkpoint_engine.py:244-361 | a transfer can be completed if and only if the names within each bucket differ |
| NcclProgress.NamesakesNeverArrive | verl/checkpoint_engine/nccl_checkpoint_engine.py:274-274 | no transfer of two weights of a byte each under one name is ever completed |
| Nixl.EndToEnd | verl/checkpoint_engine/nixl_checkpoint_engine.py:385-519 | in every interleaving each rank of the chain has delivered a prefix of the chunks rank 0 packed, byte for byte, merges a prefix of the weights without a failed assertion of the merger, and has yielded exactly the weights when it returns, whatever their names |
| Nixl.NotifyKeysMatch | verl/checkpoint_engine/nixl_checkpoint_engine.py:170-174 | the only notification that can be waiting carries the key of the only outstanding operation, so the assertion on the key never fires |
| Nixl.RelayStepKeeps | verl/checkpoint_engine/nixl_checkpoint_engine.py:456-519 | each step of a rank keeps its buffers equal to the parcels it has received and is forwarding |
| Nixl.RelayStepKeepsNext | verl/checkpoint_engine/nixl_checkpoint_engine.py:489-500 | no step of a rank writes a buffer that the next rank may still be reading |
| Nixl.HeadKeepsUp | verl/checkpoint_engine/nixl_checkpoint_engine.py:393-432 | the same for rank 0 |
| NixlProgress.StepWorks | verl/checkpoint_engine/nixl_checkpoint_engine.py:385-519 | every step of every rank decreases a measure of the work left |
| NixlProgress.RunsAreFinite | verl/checkpoint_engine/nixl_checkpoint_engine.py:385-519 | no run has more steps than the measure of its start |
| NixlProgress.NoDeadlock | verl/checkpoint_engine/nixl_checkpoint_engine.py:385-519 | where the names within each bucket differ, in every reachable state some step is enabled unless all ranks have returned |
| NixlProgress.RunsToTheEnd | verl/checkpoint_engine/nixl_checkpoint_engine.py:385-519 | then every state of a run can be carried on until all ranks have returned |
| NixlProgress.SomeRunDelivers | verl/checkpoint_engine/nixl_checkpoint_engine.py:385-519 | for any non-empty weights of different names and any length of the chain there is a complete run, after which each rank has yielded exactly the weights |
| NixlProgress.NameAssertionHolds | verl/checkpoint_engine/nixl_checkpoint_engine.py:417-417 | where the names within each bucket differ, the assertion on the name holds in every reachable state in which the next chunk is placed |
| NixlProgress.FinishesExactly | verl/checkpoint_engine/nixl_checkpoint_engine.py:385-519 | a transfer can be completed if and only if the names within each bucket differ |
| NixlProgress.NamesakesNeverArrive | verl/checkpoint_engine/nixl_checkpoint_engine.py:417-417 | no transfer of two weights of a byte each under one name is ever completed |
| NixlAgent.ChainNeedsTwo | verl/checkpoint_engine/nixl_checkpoint_engine.py:288-305 | the ranks form a chain if and only if there are at least two rollout ranks |
| NixlAgent.Agent.ReadMessage | verl/checkpoint_engine/nixl_checkpoint_engine.py:128-132 | it returns the oldest message of the rank asked for, takes no more from the socket than needed and keeps the messages of other ranks |
| NixlAgent.Agent.GetNotification | verl/checkpoint_engine/nixl_checkpoint_engine.py:134-140 | it polls only while the queue looked at is empty, returns the oldest notification of the rank that notified last, returns one if and only if one of the rank asked for is there or something is delivered, and that one is of the rank asked for if and only if one was there or the first delivery ends with one of it |
| NixlAgent.AnswerDecided | verl/checkpoint_engine/nixl_checkpoint_engine.py:134-140 | which rank the answer is for is decided by the queue and the first delivery alone |
| NixlAgent.QueueAfter | verl/checkpoint_engine/nixl_checkpoint_engine.py:128-140 | sorting arrivals by sender loses nothing and keeps the order of each sender |
| NixlAgent.ChainAnswers | verl/checkpoint_engine/nixl_checkpoint_engine.py:134-140 | the call itself: when only the rank asked for notifies, the answer is for it, and there is one if and only if it has notified |
| NixlAgent.OthersCanAnswer | verl/checkpoint_engine/nixl_checkpoint_engine.py:134-140 | a call that is asked for one rank and hands out what another sent |
| Kimi.OwnBucketInRound | verl/checkpoint_engine/kimi_checkpoint_engine.py:114-138 | in round i a rank broadcasts exactly its own i-th bucket, if it has one |
| Kimi.EachInOrder | verl/checkpoint_engine/kimi_checkpoint_engine.py:106-138 | over the schedule every rank broadcasts its own buckets, each once and in order |
| Kimi.EachOnce | verl/checkpoint_engine/kimi_checkpoint_engine.py:106-138 | the schedule is a rearrangement of the bucket list |
| Kimi.TakesTurns | verl/checkpoint_engine/kimi_checkpoint_engine.py:104-119 | first come the first buckets of all ranks, then the second ones, and so on, and in each turn the ranks in their order |
| Kimi.OrderByFirst | verl/checkpoint_engine/kimi_checkpoint_engine.py:104-110 | that order is by the first bucket of each rank in the list |
| Kimi.IssueAll | verl/checkpoint_engine/kimi_checkpoint_engine.py:98-155 | the nested loops of any rank issue the schedule, alternate the halves, and write a rank's own bucket exactly where it is the source; the last metadata is bound if and only if there is a bucket |
| Kimi.SameForAllRanks | verl/checkpoint_engine/kimi_checkpoint_engine.py:106-155 | any two ranks issue the same broadcasts on the same halves |
| KimiRuns.EndToEnd | verl/checkpoint_engine/kimi_checkpoint_engine.py:111-166 | in every interleaving of byte reads and byte writes each rank has handed out a prefix of all items in schedule order with the bytes their own ranks loaded, and all of them when it is finished |
| KimiRuns.EveryItemIsShown | verl/checkpoint_engine/kimi_checkpoint_engine.py:140-166 | item by item and byte by byte: what a rank hands out for item i of broadcast g has its name and size, and the bytes at its offset in the bucket that the source loaded |
| KimiRuns.WriteKeeps | verl/checkpoint_engine/kimi_checkpoint_engine.py:126-151 | filling one half leaves the half whose views are being handed out as it was |
| KimiRuns.StepKeeps | verl/checkpoint_engine/kimi_checkpoint_engine.py:111-166 | every step of any rank keeps the invariant between halves, wire and schedule |
| KimiRuns.ReadIsExact | verl/checkpoint_engine/kimi_checkpoint_engine.py:126-151 | every byte read from a source is the byte it loaded for that broadcast |
| KimiRuns.NoDeadlock | verl/checkpoint_engine/kimi_checkpoint_engine.py:111-166 | some step is possible unless every rank is finished, even if no byte is read before all ranks have launched the broadcast |
| KimiRuns.RunsAreFinite | verl/checkpoint_engine/kimi_checkpoint_engine.py:111-166 | the measure counts the steps of every run, and no run has more of them than a number computed from the schedule and the number of ranks |
| KimiShares.NamedTensorBuckets | verl/checkpoint_engine/kimi_checkpoint_engine.py:44-63 | the weights of the share are put into buckets in order, none is empty, only a single weight may exceed the limit, and no bucket had room for the next weight; what is yielded is the dictionary of each, which together are the share if and only if no bucket received two weights of one name |
| KimiShares.ShareAt | verl/checkpoint_engine/kimi_checkpoint_engine.py:49-51 | weight k of the share of a rank is weight rank + k * world_size of all |
| Dictionaries.AsDictMeans | verl/checkpoint_engine/kimi_checkpoint_engine.py:50-60 | a bucket filled by name holds exactly the last entry of each name |
| Dictionaries.PutKeepsPlaces | verl/checkpoint_engine/kimi_checkpoint_engine.py:60-60 | putting an entry keeps all keys at their places, and a new one comes last |
| KimiShares.NoneIsLost | verl/checkpoint_engine/kimi_checkpoint_engine.py:50-63 | all weights put into the buckets are yielded if and only if the names within each bucket differ |
| KimiShares.LosesTheFirst | verl/checkpoint_engine/kimi_checkpoint_engine.py:50-63 | of two weights of one name in one bucket only the second is yielded |
| KimiShares.SharesHoldAll | verl/checkpoint_engine/kimi_checkpoint_engine.py:49-51 | the shares of all trainer ranks together hold every weight exactly as often as it occurs |
| OffloadModel.KeysTellStoragesApart | verl/utils/activation_offload.py:35-37 | tensors in storages that do not overlap never get the same key, although the key adds elements to a byte address |
| OffloadModel.KeysAgree | verl/utils/activation_offload.py:35-37 | two tensors of one type in one storage have the same key if and only if they begin at the same element |
| OffloadModel.WindowLags | verl/utils/activation_offload.py:248-257 | every window that is followed by another ends after the next group is computed if and only if there are fewer groups than layers or a single group |
| OffloadModel.WindowLast | verl/utils/activation_offload.py:248-257 | the last window ends with the last layer |
| OffloadModel.WindowSizes | verl/utils/activation_offload.py:248-257 | the windows share the layers out evenly, longer ones first |
| OffloadModel.BuildWindow | verl/utils/activation_offload.py:250-257 | the loop fills the map with the closed form, and with fewer groups than layers the windows are increasing, late enough and end with the last layer |
| OffloadHandler.Handler.constructor | verl/utils/activation_offload.py:228-261 | all tables start empty and the window map is the closed form |
| OffloadHandler.Handler.TensorPush | verl/utils/activation_offload.py:263-283 | the tag is the group and the count; a tag already in use fails; a tensor that is not offloaded is its own tag |
| OffloadHandler.Handler.TensorPop | verl/utils/activation_offload.py:285-296 | a tag that is missing or still offloaded fails; otherwise its tensor is returned and leaves both tables |
| OffloadHandler.Handler.BulkOffloadGroup | verl/utils/activation_offload.py:298-317 | with all tensors of the group on the device, each is replaced by its key and one copy is made for each key |
| OffloadHandler.Handler.BulkReloadGroup | verl/utils/activation_offload.py:355-371 | the group's mapping is taken out and every replaced tensor comes back from the copy under its key; a missing mapping or key fails |
| OffloadHandler.Handler.OnGroupCommitForward | verl/utils/activation_offload.py:319-352 | the forward commit is the specified relation between the tables, including its failures |
| OffloadHandler.Handler.OnGroupCommitBackward | verl/utils/activation_offload.py:373-395 | the backward commit is the specified relation between the tables, including its failures |
| OffloadRuns.OffloadKeeps | verl/utils/activation_offload.py:298-317 | a bulk offload keeps the contents of every saved tensor, on the device or under its key |
| OffloadRuns.ReloadKeeps | verl/utils/activation_offload.py:355-371 | a bulk reload keeps them too |
| OffloadRuns.BackExactly | verl/utils/activation_offload.py:298-371 | after copying out and reloading a group every tensor has its own contents if and only if tensors with the same key have the same elements |
| OffloadRuns.ForwardKeeps | verl/utils/activation_offload.py:319-352 | a forward commit never fails and keeps the invariant of the pass |
| OffloadRuns.BackwardKeeps | verl/utils/activation_offload.py:373-395 | a backward commit never fails and keeps the invariant of the pass |
| OffloadRuns.PopReturns | verl/utils/activation_offload.py:285-296 | a pop finds its tensor on the device with the shape and elements that were pushed, after its copy-out and its reload were waited for |
| OffloadEarly.EveryRunIsFaithful | verl/utils/activation_offload.py:263-395 | for any number of groups up to the number of layers, over any number of passes: no assertion and no look-up fails, every pop returns what was pushed under its tag, and every pass ends with the tables of the constructor |
| OffloadEarly.EveryRunFreesReferences | verl/utils/activation_offload.py:331-345 | for any number of groups up to the number of layers, the device references are dropped in time in every state of every run |
| OffloadRuns.EveryRunIsInOrder | verl/utils/activation_offload.py:324-395 | with fewer groups than layers, in every state of every run, a group is copied out only after its pushes, its device references are dropped only after the copy-out was waited for, and a reload comes after the copy-out of its group |
| OffloadRuns.EveryRunFreesMemory | verl/utils/activation_offload.py:298-395 | with fewer groups than layers, in every state of every run: the device reference of a tensor is the tensor until its window is over, and dropped from then on until its pop; the tensor itself is replaced by its key from the end of the window before its own until the commit on the way back that ends its own |
| OffloadEarly.EarlyCopyOutIsEmpty | verl/utils/activation_offload.py:322-345 | with as many groups as layers, two or more, the first commit already copies out group 1, of which nothing is pushed yet, so its copy is empty |
| OffloadEarly.CopyOutOrderExactly | verl/utils/activation_offload.py:322-345 | for any number of groups up to the number of layers: in every state of every run each group was copied out only after its pushes, if and only if there are fewer groups than layers or a single group |
| OffloadEarly.OnlyFirstIsOffloaded | verl/utils/activation_offload.py:263-345 | with as many groups as layers only tensors of the first group are ever off the device: from the first commit until the last one on the way back |
| ReplayBuffer.Buffer.Add | verl/trainer/main_ppo_sync.py:210-222 | every item is merged into the entry of its key, tags given later winning; other entries and partitions stay |
| ReplayBuffer.Buffer.Remove | verl/trainer/main_ppo_sync.py:224-235 | exactly the given keys leave the partition |
| ReplayBuffer.Buffer.TrySample | verl/trainer/main_ppo_sync.py:255-270 | a scan answers with exactly the successes of the steps, each once, or waits because an entry of the steps is running, or meets an entry without its tags |
| ReplayBuffer.ScanWaitsForRunning | verl/trainer/main_ppo_sync.py:259-270 | where every entry has its tags, a scan waits if and only if an entry of the steps is running |
| ReplayBuffer.BatchSizeGivesNothing | verl/trainer/main_ppo_sync.py:249-270 | called with a batch size instead of steps, it answers with no keys |
| Rollout.SampleIsWhole | verl/trainer/main_ppo_sync.py:237-270 | a sample holds outputs of its step only, after every prompt of the step ended, and every output of each prompt that did not fail |
| Rollout.EverySampleIsWhole | verl/trainer/main_ppo_sync.py:197-490 | in every interleaving of workers, poller and trainer every sample is so, and no scan meets an entry without its tags |
| Rollout.SessionKeysExactly | verl/trainer/main_ppo_sync.py:405-436 | a session puts one key for each of its outputs, and no other |
| RolloutTrace.EverySampleByEvents | verl/trainer/main_ppo_sync.py:197-490 | by the events alone: in every interleaving each prompt dispatched for the step has finished or failed before the sample, every key in it is of an output put for such a prompt, and for one that did not fail every session has put its outputs and every one of them is in the sample, once |
| RolloutTrace.ClearedStaysOut | verl/trainer/main_ppo_sync.py:224-235 | what the trainer clears never comes back to the queue, nor after its removal to the buffer, unless the poller had it in hand |
| RolloutTrace.WorkerGoesOn | verl/trainer/main_ppo_sync.py:328-436 | a prompt at work can put any session that is left, and finish when none is |
| RolloutTrace.SomeRunSamples | verl/trainer/main_ppo_sync.py:197-436 | from any start there is a run in which a prompt with any number of outputs is dispatched, put, finished, polled and sampled with exactly these |
| RolloutTrace.StepCounts | verl/trainer/main_ppo_sync.py:224-270 | the step of the trainer counts the steps that it has ended |
| Rollout.AddKeepsEntries | verl/trainer/main_ppo_sync.py:217-222 | merging a snapshot keeps the step of a prompt although the finishing tag does not carry it |
| Rollout.AddKeepsComplete | verl/trainer/main_ppo_sync.py:201-222 | a snapshot that shows a prompt as finished brings all its outputs along |
| Rollout.StepKeeps | verl/trainer/main_ppo_sync.py:328-436 | every step of a worker, the poller or the trainer keeps the invariant |
| Rollout.FreshPollEndsWait | verl/trainer/main_ppo_sync.py:197-208 | once every prompt of the step has ended, the scan after one more poll returns |
| Keys.SplitUndoesPrint | verl/trainer/main_ppo_sync.py:143-145 | splitting `{uid}_{session}_{index}` from the right gives back the three fields, whatever the uid contains, and `int` their numbers |
| Keys.ParseIntUndoesPrint | verl/trainer/main_ppo_sync.py:145-145 | `int` gives back a printed number, with a sign and blanks around it or without |
| Keys.DigitsMean | verl/trainer/main_ppo_sync.py:145-145 | a digit reads as its distance from 0, and one more digit counts ten times what is before it |
| Keys.BlanksAre | verl/trainer/main_ppo_sync.py:145-145 | the six characters that `int` skips |
| Keys.PrintUndoesSplit | verl/trainer/main_ppo_sync.py:143-146 | printing the three fields of any key that has three gives back the key |
| Keys.JoinUndoesRSplit | verl/trainer/main_ppo_sync.py:143-143 | joining undoes splitting for every string and every number of splits |
| Keys.OutputKeyInjective | verl/trainer/main_ppo_sync.py:409-409 | two outputs have the same key if and only if uid, session and index agree |
| SessionFinal.CollectSessions | verl/trainer/main_ppo_sync.py:140-149 | the first loop succeeds if and only if every key has three fields and a number, and records for each session its first row with the highest index |
| SessionFinal.SelectFinals | verl/trainer/main_ppo_sync.py:139-157 | the selected rows are the final rows of the sessions, each once, and every row looks at the final row of its own session |
| SessionFinal.PickScores | verl/trainer/main_ppo_sync.py:169-170 | reading at the first masked position gives a row's score if it has a response token, and 0 otherwise |
| SessionFinal.SessionAdvantages | verl/trainer/main_ppo_sync.py:139-178 | every row receives the score of the final row of its own session, on its response tokens |
| SessionFinal.ValidationRows | verl/trainer/main_ppo_sync.py:882-894 | validation fails if and only if the last of three fields is not a number; otherwise it selects for each session, and for each key without three fields, the first row with the highest index from the last plain key on, in the order of the batch |
| SessionFinal.ChosenIsFinal | verl/trainer/main_ppo_sync.py:882-894 | when every key has three fields these are exactly the final rows |
| SessionFinal.SameRows | verl/trainer/main_ppo_sync.py:882-894 | training and validation select the same rows |
| SessionFinal.FinalOfPrinted | verl/trainer/main_ppo_sync.py:139-157 | for keys printed from any uids the final row is the first with the highest index among those of the same uid and session |
| Planner.DynamicPipelineShards | verl/model_merger/megatron_model_merger.py:57-98 | it rejects exactly the bad arguments, finds no plan exactly when none is feasible, and otherwise returns `pp_size` positive stages that sum to `layer_num`, none above the average rounded up: the middle ones equal to it, and the last as long as the first or longer by one |
| Planner.OnePlan | verl/model_merger/megatron_model_merger.py:75-98 | there is only one such plan |
| Planner.FeasibleMeans | verl/model_merger/megatron_model_merger.py:83-93 | an admissible plan exists if and only if the smallest candidate is one |
| Planner.FeasibleByShortfall | verl/model_merger/megatron_model_merger.py:83-87 | with `layer_num == q * pp_size - s` a plan exists if and only if s <= 2q - 2 |
| Planner.EnoughLayers | verl/model_merger/megatron_model_merger.py:81-96 | from (pp_size // 2) * (pp_size - 2) + 2 layers on a plan exists |
| Planner.EnoughIsTight | verl/model_merger/megatron_model_merger.py:81-96 | with one layer less there is none, for `pp_size >= 4` |
| Planner.NothingBetter | verl/model_merger/megatron_model_merger.py:65-65 | no split over `pp_size` stages, of any form, has a smaller largest stage |
| Planner.DifferenceGrows | verl/model_merger/megatron_model_merger.py:95-96 | the difference that candidates are sorted by grows strictly with the middle stages |
| Renumber.MergeLayers | verl/model_merger/megatron_model_merger.py:358-420 | the running offset shifts the layers of each stage past all layers of earlier stages, a stage without layers counting as one; so the numbers are right if and only if no such stage comes before one that has layers |
| Renumber.ShiftedExactly | verl/model_merger/megatron_model_merger.py:417-420 | the two ways of counting agree on every layer in exactly that case |
| Renumber.NumbersDiffer | verl/model_merger/megatron_model_merger.py:379-385 | two keys get the same layer number if and only if they are of the same layer of the same stage |
| Renumber.PlanNumbersAllLayers | verl/model_merger/megatron_model_merger.py:358-420 | with the stages of a plan the numbers given are exactly those of the model's layers |
| Renumber.MergeOnAllRanks | verl/model_merger/megatron_model_merger.py:358-366 | the ranks, each numbering its own stage from the cumulated sizes of a plan, give exactly the numbers of the layers of the model |
| Qkv.UnfuseUndoesFuse | scripts/converter_hf_to_mcore.py:155-160 | picking queries, keys and values out of the fused tensor gives back what was fused |
| Qkv.FuseUndoesUnfuse | scripts/converter_hf_to_mcore.py:155-160 | fusing the parts of any tensor made of whole groups gives back the tensor |
| Qkv.SplitQkv | verl/model_merger/megatron_model_merger.py:330-354 | splitting succeeds if and only if the tensor is made of whole groups, and then gives its three parts |
| Qkv.ConvertThenSplit | verl/model_merger/megatron_model_merger.py:330-354 | what the converter fuses is split into the same three tensors, for all heads that the key-value heads divide |
| Qkv.SlicesSplitAlike | scripts/legacy_model_merger.py:541-557 | splitting slice by slice gives the same as splitting the whole |
| Qkv.MergeAcrossTp | scripts/legacy_model_merger.py:529-557 | it succeeds if and only if the sizes taken from the first slice fit every chunk of every slice, and collects the three parts of all slices when these are made of whole groups |
| Qkv.ConvertThenMerge | scripts/legacy_model_merger.py:529-557 | merging the contiguous slices of what the converter fuses gives the same three tensors, for every number of ranks that divides the key-value heads |
| DataProto.SelectRows | verl/protocol.py:635-673 | row k of a selection is row idx[k] of the data, in all columns at once |
| DataProto.SelectTwice | verl/protocol.py:635-673 | selecting twice is selecting with the composed row map |
| DataProtoIndexing.SelectIdxsIsSelect | verl/protocol.py:635-673 | positions that may count from the end, or a mask, select rows; it fails if and only if the index does not fit and there is a column to notice it |
| DataProtoIndexing.InRowsMeans | verl/protocol.py:635-673 | a position fits if and only if it names a row, from the start or from the end |
| DataProtoIndexing.PositionsMean | verl/protocol.py:635-673 | and then it selects that row |
| DataProtoIndexing.KeptMeans | verl/protocol.py:635-673 | a mask keeps exactly the rows it sets, in order |
| DataProto.SliceIsSelect | verl/protocol.py:675-719 | a slice, with Python's bounds, applies one row map to all columns |
| DataProtoIndexing.SliceStepIsSelect | verl/protocol.py:675-719 | a slice with any step that is not refused applies one row map to all columns |
| DataProtoIndexing.SliceStepAt | verl/protocol.py:675-719 | the rows are the first and then every step, as long as the limit is not reached |
| DataProtoIndexing.BoundsMean | verl/protocol.py:675-719 | a missing bound leaves nothing out at its end, a bound counts from the start or from the end, and one beyond the rows is moved to that end |
| DataProtoIndexing.NoStepIsSlice | verl/protocol.py:675-719 | without a step it is the plain slice |
| DataProto.RepeatIsSelect | verl/protocol.py:971-1013 | both ways of repeating apply one row map to all columns |
| DataProto.RepeatedAt | verl/protocol.py:982-1007 | element k of the result is element k / times, or element k % n |
| DataProto.ConcatSelections | verl/protocol.py:916-961 | concatenating selections is selecting with the row maps one after the other, with the metrics of all parts merged; it fails if and only if these cannot be merged |
| DataProtoConcat.ConcatExactly | verl/protocol.py:916-961 | batches that have rows can be concatenated if and only if they have the same columns, agree on the meta information, and their metrics can be merged |
| DataProtoConcat.ConcatRows | verl/protocol.py:916-961 | row j of part i follows all rows of earlier parts, whole |
| DataProtoConcat.JoinMetaExactly | verl/protocol.py:936-956 | the other entries merge if and only if no two parts disagree on one, and the result has those of all parts |
| DataProto.ConcatCollectsMetrics | verl/protocol.py:938-960 | the metrics of a concatenation are the merged metrics of the parts |
| Metrics.RemergedExactly | verl/protocol.py:940-958 | merging copies of a metrics entry succeeds if and only if its dictionaries have no keys beyond those of the first, and leaves it as it is if and only if it is absent or an empty dictionary |
| Metrics.MergedOfWorkers | verl/protocol.py:940-958 | one dictionary from each worker: merging fails if and only if one has a key that the first has not, and with equal keys each metric becomes the list of the workers' values in order |
| Metrics.CollectedMeans | verl/protocol.py:940-950 | nothing is collected of a part without metrics or with `None`, a list gives its dictionaries in order, and a dictionary itself |
| DataProto.Chunk | verl/protocol.py:864-903 | without padding it succeeds if and only if the rows divide evenly, and cuts tensors and objects at the same places |
| DataProto.RunAt | verl/protocol.py:864-903 | chunk i has the rows from i times the size on |
| DataProto.ConcatUndoesChunk | verl/protocol.py:864-961 | concatenating the chunks gives the data with its metrics merged, and so the data itself if and only if the metrics are absent or an empty dictionary |
| DataProto.MetricsBecomeLists | verl/protocol.py:940-958 | a batch whose metrics come back as lists from a single chunk |
| DataProto.Split | verl/protocol.py:905-914 | the slices are the runs of the split size, in all columns |
| DataProto.SplitAt | verl/protocol.py:905-914 | part k has the rows from k times the size on, up to the size or the end |
| DataProto.ConcatUndoesSplit | verl/protocol.py:905-961 | concatenating what was split gives the data back if and only if there are rows and the metrics are absent or an empty dictionary |
| DataProtoPadding.PadToDivisor | verl/protocol.py:74-99 | the fewest rows that make the divisor divide are added, row j is row j mod n, and if any are added the metrics of all parts are merged |
| DataProtoPadding.UnpadUndoesPad | verl/protocol.py:102-106 | unpadding gives the rows back, whatever they were padded with |
| DataProtoPadding.PadThenUnpad | verl/protocol.py:74-106 | padding and then unpadding fails only where metrics cannot be merged, changes nothing but the metrics, and is the identity if and only if no rows are added or the metrics are absent or an empty dictionary |
| DataProtoPadding.Proto.Padding | verl/protocol.py:849-862 | the first or the last row is appended the given number of times, in place, if and only if there is one or there is no column at all, and the metrics can be merged; the meta information stays |
| DataProtoPadding.Proto.Reorder | verl/protocol.py:963-969 | the rows are rearranged in place, the same in all columns |
| DataProtoPadding.Get | verl/protocol.py:1212-1228 | the results are concatenated, and the chunk asked for is taken of them |
| DataProtoPadding.ChunkThenGet | verl/protocol.py:1197-1228 | chunk i of results to come is chunk i of the concatenated results, whose metrics are merged |
| DataProtoPadding.SecondChunkForgetsFirst | verl/protocol.py:1197-1228 | what a chunk of a chunk gives is a chunk of all the results, and it is the chunk of the chunk if and only if the first choice was of everything or there are no rows |
| DataProtoPadding.ChunkOfChunkDiffers | verl/protocol.py:1197-1228 | the two row maps agree, and even have the same length, only in those cases |
| DataProtoPadding.BothRowsInsteadOfOne | verl/protocol.py:1197-1228 | two rows in two chunks: the only chunk of the first chunk has both rows |
| BoundingBox.ValidMeans | verl/tools/image_zoom_in_tool.py:181-200 | a box is valid if and only if it is not empty and neither side is more than a hundred times the other |
| BoundingBox.ClampedMeans | verl/tools/image_zoom_in_tool.py:218-221 | clamping is intersecting with the image, and leaves a box inside it as it is |
| BoundingBox.TargetSize | verl/tools/image_zoom_in_tool.py:238-257 | both sides are scaled by the same factor |
| BoundingBox.FactorFits | verl/tools/image_zoom_in_tool.py:243-257 | the factor is at least 1 and the scaled box fits the image |
| BoundingBox.FactorIsLargest | verl/tools/image_zoom_in_tool.py:243-257 | no larger factor up to the one that reaches the minimum fits |
| BoundingBox.AspectKept | verl/tools/image_zoom_in_tool.py:243-257 | scaling keeps the ratio of the sides |
| BoundingBox.Grow | verl/tools/image_zoom_in_tool.py:233-279 | the assignments compute the box grown around its center, shifted into the image and rounded outwards |
| BoundingBox.GrownCovers | verl/tools/image_zoom_in_tool.py:260-279 | the grown box lies in the image and contains the box it grew from |
| BoundingBox.ShiftedCenters | verl/tools/image_zoom_in_tool.py:260-274 | the grown interval keeps its center unless the image is in the way, and then it touches the edge |
| BoundingBox.MaybeResize | verl/tools/image_zoom_in_tool.py:205-297 | a returned box lies in the image, is valid, has sides of at least 28 and contains the clamped request; a request that is valid and large enough comes back clamped; a valid small one for which the image has room is refused if and only if rounding breaks the ratio; nothing is returned for an image with a side below 28 |
| BoundingBox.RoomExactly | verl/tools/image_zoom_in_tool.py:238-297 | where the image has room for the smaller side grown to 28, the grown box has long enough sides, and is valid unless the short side begins at a whole coordinate and the long one is rounded to more than 2800 |
| BoundingBox.RoomIsEnough | verl/tools/image_zoom_in_tool.py:238-297 | a simpler sufficient condition: with room, 28 times the larger side at most 2798 times the smaller |
| BoundingBox.NothingInNarrowImage | verl/tools/image_zoom_in_tool.py:289-297 | no box that is large enough lies in an image with a side below 28 |
| BoundingBox.RefusedByRounding | verl/tools/image_zoom_in_tool.py:260-297 | a valid request with room on all sides that is refused, because rounding outwards breaks the ratio |
| JobQueue.EveryRunIsSafe | scripts/shared_queue/poll_worker.py:69-251 | with any number of workers and crashes anywhere, a submitted job is in exactly one directory, is started at most once, is done only if its process exited with 0 in time, failed only if it was not started or ended otherwise, and is marked as running while a worker waits for its process |
| JobQueue.NeverPendingAgain | scripts/shared_queue/poll_worker.py:69-80 | a job that was claimed never becomes pending again |
| JobQueue.MoveToRunning | scripts/shared_queue/poll_worker.py:70-74 | claiming moves the job, as it is, from one directory to the other and into the hand of this worker, changes nothing else, and keeps the invariant |
| JobQueue.MoveResultKeeps | scripts/shared_queue/poll_worker.py:234-251 | filing a result keeps the invariant: done for exit code 0 without timeout, failed otherwise |
| JobQueue.MoveRefusedKeeps | scripts/shared_queue/poll_worker.py:99-117 | filing a refused job keeps the invariant: it was never started |
| JobQueue.ListThenClaim | scripts/shared_queue/poll_worker.py:69-80 | a worker that lists the pending jobs while nobody else moves ends up with the first of them that is still pending, which is moved, was never started, and is in no other hand |
| JobWorker.Directories.ClaimOneJob | scripts/shared_queue/poll_worker.py:69-80 | the first listed job that is still pending is moved and returned; if none is, nothing changes |
| JobWorker.Directories.FailWithoutRunning | scripts/shared_queue/poll_worker.py:99-117 | the job leaves the running directory and is failed, without an exit code |
| JobWorker.Directories.RunJob | scripts/shared_queue/poll_worker.py:172-251 | the job is filed as done or failed by how its process ended, with exit code and timeout in its file; an invalid one is refused |
| JobWorker.ClaimAgrees | scripts/shared_queue/poll_worker.py:69-80 | claiming is a list of steps of the machine of all workers, with the same effect on the files |
| JobWorker.RefusalAgrees | scripts/shared_queue/poll_worker.py:183-187 | so is refusing a job, and it starts nothing |
| JobWorker.RunAgrees | scripts/shared_queue/poll_worker.py:189-251 | so is running a job to its end, and it starts one process |
| Groupwise.OnePassIsSpread | verl/utils/groupwise.py:205-212 | the one-pass form equals the sum of squared deviations from the mean |
| Groupwise.VarianceNotNegative | verl/utils/groupwise.py:210-213 | so the variance is not negative before the floor |
| Groupwise.IndexAdd | verl/utils/groupwise.py:205-207 | scatter-adding in place leaves in each cell the sum over its group |
| Groupwise.GroupMeanStd | verl/utils/groupwise.py:191-223 | each group of two or more gets its true mean and the root of its floored variance over n - 1, smaller ones get 0 and 1, for any scores and indices |

## Left out

- The Mooncake engine: its completion marker is written into a buffer whose views may still be in use.
- Validation samples across batches of one step: `_validate` reuses the step number, so only training steps are covered.
- The libraries behind the protocols (ray, zmq, NCCL, nixl, torch streams): their operations are steps with the effect that the code relies on; a subscriber that misses the first message of a publisher is not modelled.
- Reshaping and element types of byte buffers: a weight is its name, shape, type and bytes.
- Floating-point rounding: `BoundingBox`, `Groupwise` and `SessionFinal` use real numbers, and the square root is a parameter.
- `_gen_h2d_buckets` and `_to_named_tensor` of the KIMI engine: the bucket list is given, the same at all ranks, and item offsets are given with the buckets.
- Devices, pinned memory, checkpointing and the synchronous offload handler: pushes and pops of the asynchronous handler only.
- What an exception leaves behind: the offload handler's tables and counters after a failed assertion are left open.
- `int` on digits and blanks outside ASCII, and its limit on the number of digits: such a field counts as malformed, and a number of any length is read.
- Iteration order of dictionaries where only membership matters: it is left open, so the statements hold for every order.
- Padding-enabled `chunk`, `union`, `pop` and `rename` of `DataProto`; values of metrics are numbers or lists.
- DataProto.Chunk: for a tensor batch without rows and several chunks it is left to the tensor library whether cutting it gives that many empty parts; the model takes it that it does, and so does `DataProtoPadding.SecondChunkForgetsFirst` where there are no rows.
- MoE layouts, name tables, LoRA saving, FSDP concatenation, gate and up projections, configuration and file copying: easy members.
- Temporary files of `atomic_write_json`: writing a job file is one step.
