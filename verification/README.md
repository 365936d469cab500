# Verified model of verl's distributed and stateful plumbing

This project models, in Dafny, the parts of the repository whose correctness depends on state, interleaving and
index arithmetic, and proves what they promise for all inputs, all runs and all reachable states.

* **Weight transfer** (`checkpoint_engine`). A trainer splits named byte tensors into chunks, packs the chunks greedily
  into fixed-size buckets and streams the buckets to the rollout ranks, which rebuild the tensors. `Shapes` counts the
  elements of a tensor, `WeightChunks` has splitting and merging, `BucketPacking` the packing loop over two buffers,
  `ViewAlignment` where weights start in the buckets and whether they may be viewed at their dtype there. `NixlRelay`,
  `NcclBroadcast` and `MooncakeRelay` are transition systems of the three transports: one action is one atomic piece of
  one rank's program, or the network moving one byte, and the actions of all ranks interleave freely. `NixlSafety`,
  `NcclSafety` and `MooncakeSafety` prove the invariants, `NixlDelivery`, `NcclDelivery` and `MooncakeDelivery` what
  follows from them, `NixlProgress`, `NcclProgress` and `MooncakeProgress` progress and termination, `MooncakeRuns` the
  runs that go wrong, and `NixlTopology` how the chain is wired.
* **Activation offloading** (`AsyncDoubleBufferGroupOffloadHandler`). `ActivationWindow` is the arithmetic of the window
  map, `TensorViews` the key by which tensors are recognized, `ActivationOffload` the handler (a class with the
  original's fields, proved against functions on values), `OffloadCycle`, `OffloadForward`, `OffloadBackward` and
  `OffloadSteps` training steps over it, `OffloadStreams` the ordering of computation and copies.
* **Replay buffer** (`ReplayBuffer`, agent-loop publication). `ReplayBuffer` has the buffer as a class and the protocol
  between dispatcher, agent loops, polling thread and sampler; `ReplaySafety` its invariant and results. `SessionKeys`
  models trajectory keys and the choice of every session's final output.
* **Checkpoint layout**. `PipelineShards` (layers per pipeline rank), `LayerPlacement` (which rank converts and merges
  which layer and expert), `QkvLayout` (where query, key and value stand in one tensor, also across tensor-parallel
  ranks) and `GateUpLayout` (gate and up), the latter two over `RowCuts`.
* **DataProto**. `DataProto` models padding, chunking, concatenation and unpadding of batches with tensor and non-tensor
  columns.
* **Boxed answers**. `BoxedAnswer` models the two scanners for `\boxed{...}`.

`Common` holds `Option`, `Result` and facts about sequences and chains. A failed assertion or an exception of the
original is the result `Err` (in the transition systems: the action that follows it is not enabled).

## Where the code and its description differ

* A weight without bytes produces no chunk and never arrives (`base.py:532`): `WeightChunks.RoundTripIff` gives the
  exact condition.
* The receiver views a weight that fits into a bucket in place, at its dtype (`base.py:566`), and torch refuses a view
  at an offset that is no multiple of the item size. The packing does not align, so the receiver fails at such a weight
  and the transfer gets stuck (`ViewAlignment.MergeReceived`, `NixlProgress.DeadlockFreeIff`,
  `NcclProgress.BroadcastDeadlockFreeIff`). A set of item sizes is safe for all lists of weights exactly if it is one
  size and divides the bucket size (`ViewAlignment.ItemSizesIff`; for Mooncake, which halves its buffer and converts all
  weights to one dtype, `MooncakeProgress.AllViewableIff`).
* `build_topology` of the NIXL engine slices `metadata[-R + 1:]`, which for one rollout rank is the whole list; the
  group then does not form (`NixlTopology.GroupFormsIff`).
* Mooncake acknowledges a bucket by writing over its first four bytes while the owner may still be yielding it. The
  buffers are safe from being overwritten by later buckets, as long as no payload looks like an acknowledgement
  (`MooncakeRuns.NeverTooEarlyIff`), but delivery is exact in every run only with a single rollout rank
  (`MooncakeRuns.ExactDeliveryIff`).
* The offload handler accepts as many groups as layers, but then every group except the first is offloaded before it is
  computed: nothing is copied and nothing is freed (`OffloadSteps.FullOffloadKeepsAll`, `OffloadStreams.ReleasedIff`).
* The offload key ignores strides: a tensor and its transpose in one group come back with the elements of the first
  (`OffloadSteps.StepReturnsPushedIff`, `OffloadSteps.TransposeIsUnfaithful`).
* The pipeline sharding search fails for some valid sizes, such as 9 layers on 8 ranks (`PipelineShards.SucceedsIff`).
* Experts are dropped silently when the expert-parallel size does not divide their number
  (`LayerPlacement.EveryExpertCopiedIff`).
* Sampling by batch size selects nothing: no tag has the step `None`, so the sampler returns at once without keys
  (`ReplayBuffer.Buffer.SampleOnce`).
* The two answer scanners disagree on texts such as `\boxed {x}` (`BoxedAnswer.ScannersAgreeIff`).

## Model

| member | source | states |
|---|---|---|
| WeightChunks.SplitWeightChunks | verl/verl/checkpoint_engine/base.py:517-543 | the splitting loop produces the chunk list that the round-trip theorems are about |
| WeightChunks.SplitOne | verl/verl/checkpoint_engine/base.py:517-543 | chunk k of a weight has the bytes from k times the bucket size on, up to a full bucket, and the metadata of the weight; there are as many chunks as it takes |
| WeightChunks.SplitAppend | verl/verl/checkpoint_engine/base.py:517-543 | the chunks of a list are those of its weights, one weight after the other |
| Shapes.NumelCounts | verl/verl/checkpoint_engine/base.py:561 | `numel` of a shape is the number of index tuples below it |
| WeightChunks.NBytesCounts | verl/verl/checkpoint_engine/base.py:561 | a tensor has one byte for every element and every place in an item |
| WeightChunks.Merger.Accept | verl/verl/checkpoint_engine/base.py:546-585 | one chunk changes buffer, name and offset exactly as the merge state machine says, or fails where an assertion, a shape error or the view of a small weight at a misaligned place fails |
| WeightChunks.MergeWeightChunks | verl/verl/checkpoint_engine/base.py:546-585 | the merging loop yields exactly what merging the whole list gives, the error cases included |
| WeightChunks.MergeAcceptsIff | verl/verl/checkpoint_engine/base.py:557-585 | for any chunks whatever, no assertion and no view fails if and only if small weights come alone, complete and aligned, and the chunks of an oversized one follow one another from offset 0 under one name and inside it |
| WeightChunks.MergeAfterSplit | verl/verl/checkpoint_engine/base.py:517-585 | merging the chunks of any list of weights where they were cut gives back the list, in order and byte for byte, except weights without bytes; nothing fails |
| WeightChunks.NonEmptyAppend | verl/verl/checkpoint_engine/base.py:529-543 | what survives of a list is what survives of its parts, in order, and of a single weight everything unless it has no bytes |
| WeightChunks.MergeMoved | verl/verl/checkpoint_engine/base.py:546-585 | wherever the chunks have been moved to, merging gives back the weights that have bytes, or fails if and only if some weight that fits into a bucket lies where it cannot be viewed |
| WeightChunks.RoundTripIff | verl/verl/checkpoint_engine/base.py:529-585 | split and merge, without a transfer between them, are the identity if and only if no weight is without bytes |
| WeightChunks.ZeroByteWeightIsLost | verl/verl/checkpoint_engine/base.py:529-543 | a tensor with a zero dimension produces no chunk and is missing after the merge |
| BucketPacking.PackSplit | verl/verl/checkpoint_engine/nccl_checkpoint_engine.py:252-283 | for distinctly named weights the buckets tile: offsets are the running sums, every bucket fits, is as full as greedy packing makes it and has no name twice, and all chunks are packed in order |
| BucketPacking.FitsThenDistinct | verl/verl/checkpoint_engine/nccl_checkpoint_engine.py:272-276 | two chunks of one weight cannot meet in a bucket that fits, so the name assertion cannot fail |
| ViewAlignment.PackingAligned | verl/verl/checkpoint_engine/nccl_checkpoint_engine.py:252-283 | with one item size that divides the bucket size every chunk lies where it may be viewed at its dtype |
| ViewAlignment.ItemSizesIff | verl/verl/checkpoint_engine/nccl_checkpoint_engine.py:252-283 | of any set of item sizes of at most half a bucket: every list of distinctly named weights packs so that each weight that fits a bucket can be viewed, if and only if there is one size and it divides the bucket size |
| ViewAlignment.MergeReceived | verl/verl/checkpoint_engine/base.py:562-566 | splitting, packing, reading and merging returns the weights if and only if each has bytes and each that fits into a bucket starts at a multiple of its item size, the starts being computed from the sizes alone; a misaligned start is an error |
| BucketPacking.ReadHeld | verl/verl/checkpoint_engine/nccl_checkpoint_engine.py:352-368 | reading a buffer that holds a bucket through the bucket's metadata returns its chunks |
| BucketPacking.BucketSender.Publish | verl/verl/checkpoint_engine/nccl_checkpoint_engine.py:255-275 | hands over metadata and a buffer that shows every packed chunk, and swaps the two buffers |
| BucketPacking.BucketSender.Add | verl/verl/checkpoint_engine/nccl_checkpoint_engine.py:272-283 | a chunk is written behind the used bytes without harming the chunks before it, and refused exactly if its name is taken |
| BucketPacking.BucketSender.Turn | verl/verl/checkpoint_engine/nccl_checkpoint_engine.py:252-283 | the open bucket is flushed intact exactly when the chunk does not fit |
| BucketPacking.SendWeights | verl/verl/checkpoint_engine/nccl_checkpoint_engine.py:230-299 | the sending loop succeeds exactly if no bucket of the packing repeats a name, and then publishes the packing bucket by bucket, only the last one marked as last |
| NixlTopology.FormsChain | verl/verl/checkpoint_engine/nixl_checkpoint_engine.py:288-305 | from two rollout ranks on, every neighbour pair of the chain is told each other's metadata and spare trainers nothing |
| NixlTopology.GroupFormsIff | verl/verl/checkpoint_engine/nixl_checkpoint_engine.py:288-329 | all length checks and all workers' assertions pass if and only if there is a trainer and at least two rollout workers |
| NixlSafety.StepInv | verl/verl/checkpoint_engine/nixl_checkpoint_engine.py:389-526 | every action of every rank keeps the invariant of the relay |
| NixlDelivery.NoEarlyOverwrite | verl/verl/checkpoint_engine/nixl_checkpoint_engine.py:389-526 | in no run of a chain of any length is a byte packed or read into a buffer whose bucket the next rank has not finished reading or the rank itself has not finished yielding |
| NixlDelivery.ViewsStayExact | verl/verl/checkpoint_engine/nixl_checkpoint_engine.py:481-493 | while a rank yields, all views into its buffer show the packed bytes at every moment |
| NixlDelivery.YieldsSenderChunks | verl/verl/checkpoint_engine/nixl_checkpoint_engine.py:452-532 | at every moment each rank has yielded a beginning of the sender's chunk list, and a finished rank all of it |
| NixlDelivery.EveryRankGetsTheWeights | verl/verl/checkpoint_engine/nixl_checkpoint_engine.py:370-532 | end to end, a rank finishes only if every weight that fits into a bucket starts where it can be viewed; it then has rebuilt the weights that have bytes, and all of them if and only if none is without bytes |
| NixlProgress.NeverDeadlocks | verl/verl/checkpoint_engine/nixl_checkpoint_engine.py:397-526 | if no merger can fail, some action is enabled in every reachable state that is not final |
| NixlProgress.DeadlockFreeIff | verl/verl/checkpoint_engine/nixl_checkpoint_engine.py:397-526 | no run gets stuck if and only if every weight that fits into a bucket starts at a multiple of its item size |
| NixlProgress.RunsAreBounded | verl/verl/checkpoint_engine/nixl_checkpoint_engine.py:397-526 | every run has at most a number of steps that is computed from chunks, buckets, bucket size and ranks |
| NixlProgress.MaximalRunDelivers | verl/verl/checkpoint_engine/nixl_checkpoint_engine.py:370-532 | a run that cannot be continued has delivered the weights to all ranks if and only if every weight that fits into a bucket starts at a multiple of its item size |
| NcclDelivery.BroadcastsCarryBuckets | verl/verl/checkpoint_engine/nccl_checkpoint_engine.py:248-298 | the k-th broadcast carries the k-th packed bucket in its metadata and its bytes |
| NcclDelivery.RootNeverOverwrites | verl/verl/checkpoint_engine/nccl_checkpoint_engine.py:254-283 | the root packs only into a buffer whose broadcast is over |
| NcclDelivery.PeerNeverOverwrites | verl/verl/checkpoint_engine/nccl_checkpoint_engine.py:320-368 | bytes arrive only in a buffer from which nothing is being yielded |
| NcclDelivery.PeersYieldSenderChunks | verl/verl/checkpoint_engine/nccl_checkpoint_engine.py:314-375 | the broadcast keeps the same promise as the relay: beginnings of the sender's chunk list, and in the end all of it |
| NcclDelivery.EveryPeerGetsTheWeights | verl/verl/checkpoint_engine/nccl_checkpoint_engine.py:230-375 | end to end, a receiver finishes only if every weight that fits into a bucket starts where it can be viewed, and then has rebuilt the weights |
| NcclDelivery.BroadcastNeverDeadlocks | verl/verl/checkpoint_engine/nccl_checkpoint_engine.py:49-99 | if no merger can fail, some action is enabled until root and receivers are done, whether or not a broadcast waits for all receivers to join |
| NcclProgress.BroadcastDeadlockFreeIff | verl/verl/checkpoint_engine/nccl_checkpoint_engine.py:230-375 | no run of the broadcast gets stuck if and only if every weight that fits into a bucket starts at a multiple of its item size |
| NcclProgress.BroadcastRunsAreBounded | verl/verl/checkpoint_engine/nccl_checkpoint_engine.py:230-375 | every run of the broadcast, under every schedule, has at most a number of steps that is computed from chunks, buckets, bucket size and receivers |
| NcclProgress.MaximalBroadcastDelivers | verl/verl/checkpoint_engine/nccl_checkpoint_engine.py:230-375 | a run that cannot be continued has delivered the weights to all receivers if and only if every weight that fits into a bucket starts at a multiple of its item size |
| MooncakeSafety.StepInv | verl/verl/checkpoint_engine/mooncake_checkpoint_engine.py:162-281 | every action of every rank keeps the invariant of the in-band protocol |
| MooncakeRelay.MagicIff | verl/verl/checkpoint_engine/mooncake_checkpoint_engine.py:142-147 | a buffer shows an acknowledgement exactly if it begins with the four magic bytes |
| MooncakeDelivery.NoEarlyOverwrite | verl/verl/checkpoint_engine/mooncake_checkpoint_engine.py:162-256 | in no run is a byte of bucket k written over bucket k - 2 before the next rank has transferred and acknowledged that one, if no payload that receivers come to and whose buffer is used again starts with the magic word |
| MooncakeRuns.NeverTooEarlyIff | verl/verl/checkpoint_engine/mooncake_checkpoint_engine.py:142-147 | and this is the exact condition: if such a payload starts with the magic word, some run overwrites it early |
| MooncakeRuns.MagicPayloadIsOverwritten | verl/verl/checkpoint_engine/mooncake_checkpoint_engine.py:176-198 | that run, for any such bucket and any number of ranks: the sender is two buckets ahead while rank 1 has not even taken it |
| MooncakeDelivery.AnnouncedStaysExact | verl/verl/checkpoint_engine/mooncake_checkpoint_engine.py:233-249 | from announcement to acknowledgement a bucket is intact in the buffer it is read from, byte by byte |
| MooncakeRuns.ReturnsAfterAcksIff | verl/verl/checkpoint_engine/mooncake_checkpoint_engine.py:205-216 | if no earlier payload whose buffer is used again starts with the magic word: the sender returns only after rank 1 has acknowledged every bucket, in every run, if and only if the last payload does not start with it (or rank 1 fails so early that the sender never returns) |
| MooncakeDelivery.YieldsWeightsOrStamped | verl/verl/checkpoint_engine/mooncake_checkpoint_engine.py:251-272 | every rank yields the weights in order; only on a rank with a successor, and only in the first four bytes of a bucket, may acknowledgement bytes take their place |
| MooncakeDelivery.LastRankIsExact | verl/verl/checkpoint_engine/mooncake_checkpoint_engine.py:225-281 | the last rank yields exactly the weights |
| MooncakeRuns.RankOneMayYieldMagic | verl/verl/checkpoint_engine/mooncake_checkpoint_engine.py:251-272 | with two ranks or more some run lets rank 1 yield acknowledgement bytes, for any bucket that does not start with them and that receivers get through |
| MooncakeRuns.ExactDeliveryIff | verl/verl/checkpoint_engine/mooncake_checkpoint_engine.py:225-281 | what is yielded is exact in every run if and only if there is a single rollout rank (or all payloads that receivers get through start with the magic word anyway) |
| MooncakeProgress.NeverDeadlocks | verl/verl/checkpoint_engine/mooncake_checkpoint_engine.py:142-281 | if every weight lies where it can be viewed, some rank can act in every reachable state that is not final, although ranks wait for messages from one side and for acknowledgements from the other |
| MooncakeProgress.DeadlockFreeIff | verl/verl/checkpoint_engine/mooncake_checkpoint_engine.py:142-281 | no run gets stuck if and only if every weight starts, in its half of the buffer, at a multiple of its item size |
| MooncakeProgress.AllViewableIff | verl/verl/checkpoint_engine/mooncake_checkpoint_engine.py:167-263 | for the single item size of the rollout dtype that is so if and only if there is one bucket or the size divides the bucket size |
| MooncakeProgress.RunsAreBounded | verl/verl/checkpoint_engine/mooncake_checkpoint_engine.py:162-281 | every run has at most a number of steps that is computed from weights, buckets, bucket size and ranks |
| MooncakeProgress.MaximalRunDelivers | verl/verl/checkpoint_engine/mooncake_checkpoint_engine.py:162-281 | a run that cannot be continued has ended with the sender returned, all receivers done and the last one exact, if and only if every weight can be viewed where it lies |
| ActivationWindow.BuildWindow | verl/verl/utils/activation_offload.py:250-257 | the loop with its carried constant builds the closed form of the window map |
| ActivationWindow.WindowGap | verl/verl/utils/activation_offload.py:248-257 | windows are spread evenly: gaps are the quotient or one more, longer ones first |
| ActivationWindow.WindowEnds | verl/verl/utils/activation_offload.py:250-257 | the last window ends at the last layer, so no commit looks past the map |
| ActivationWindow.WindowsAheadIff | verl/verl/utils/activation_offload.py:250-257 | every group's window lies after its own commit if and only if some layer is not offloaded |
| ActivationWindow.GroupsBeforeNext | verl/verl/utils/activation_offload.py:331-345 | the offloaded group count after a commit is the number of windows that have ended |
| TensorViews.SameKeyIff | verl/verl/utils/activation_offload.py:35-37 | although the key adds bytes and elements, live non-empty tensors, also of several dtypes over one allocation, share it exactly if they start at the same element of the same storage |
| TensorViews.FitsIff | verl/verl/utils/activation_offload.py:35-37 | a strided tensor is valid exactly if the storage has the element of every index tuple |
| TensorViews.ReadAt | verl/verl/utils/activation_offload.py:315-323 | the elements of a strided tensor in row-major order: the one with index tuple i is read at offset plus the sum of indices times strides |
| TensorViews.ContiguousKeyFaithful | verl/verl/utils/activation_offload.py:35-37 | contiguous tensors with one key and equally many elements are reshapes of one another |
| TensorViews.TransposeSharesKey | verl/verl/utils/activation_offload.py:35-37 | a matrix and its transpose share the key but not their elements |
| ActivationOffload.AsyncOffloadHandler.constructor | verl/verl/utils/activation_offload.py:228-261 | a new handler is in the initial state with its window map built |
| ActivationOffload.AsyncOffloadHandler.TensorPush | verl/verl/utils/activation_offload.py:263-283 | a fresh tag and, under it, the tensor, with a second reference to it only while its group is to be offloaded; fails exactly if the tag is taken; a tensor that is not to be offloaded changes nothing |
| ActivationOffload.AsyncOffloadHandler.TensorPop | verl/verl/utils/activation_offload.py:285-296 | a pop removes the tag and returns its tensor, or fails if it is missing or still away |
| ActivationOffload.AsyncOffloadHandler.BulkOffloadGroup | verl/verl/utils/activation_offload.py:298-317 | a group's entries become keys, with one copy per key that the first tensor with it provides |
| ActivationOffload.AsyncOffloadHandler.BulkReloadGroup | verl/verl/utils/activation_offload.py:354-371 | a group's entries become views of the copies, or the reload fails if a copy is missing or has another size |
| ActivationOffload.GatherFirst | verl/verl/utils/activation_offload.py:298-317 | there is one copy for every key of the group, that of the first tensor pushed with the key |
| ActivationOffload.BulkOffloadMeans | verl/verl/utils/activation_offload.py:298-317 | offloading leaves key and shape of every tensor of the group, changes nothing else, and fails if one of them is away already |
| ActivationOffload.BulkReloadMeans | verl/verl/utils/activation_offload.py:347-371 | reloading gives every tensor of the group its shape and the elements of the copy with its key; it fails exactly if copies are missing or of another size |
| OffloadCycle.CopiesAt | verl/verl/utils/activation_offload.py:298-317 | over a whole layer, the copy for a key is that of the first tensor in the order of the pushes |
| ActivationOffload.AsyncOffloadHandler.EndWindow | verl/verl/utils/activation_offload.py:331-345 | a group is released and the next one offloaded |
| ActivationOffload.AsyncOffloadHandler.SynchronizeOnGroupCommitForward | verl/verl/utils/activation_offload.py:319-345 | the whole state after the window logic of a forward commit, or failure of a lookup |
| ActivationOffload.AsyncOffloadHandler.OnGroupCommitForward | verl/verl/utils/activation_offload.py:347-352 | the whole state after a forward commit |
| ActivationOffload.AsyncOffloadHandler.OnGroupCommitBackward | verl/verl/utils/activation_offload.py:373-395 | the whole state after a backward commit |
| OffloadForward.ForwardRuns | verl/verl/utils/activation_offload.py:263-352 | no push, lookup or assertion of a forward pass fails, and after any commit the handler holds exactly the closed form |
| OffloadBackward.BackwardRuns | verl/verl/utils/activation_offload.py:285-395 | a backward pass succeeds exactly if the copies fit the tensors' shapes, returns the copies' elements and restores the initial state |
| OffloadSteps.StepReturnsPushedIff | verl/verl/utils/activation_offload.py:263-395 | for all 1 <= G <= L, any pushes and any order of pops, every pop returns exactly what was pushed if and only if tensors with one key in a group that leaves are reshapes of one another |
| OffloadSteps.StepsReturnPushed | verl/verl/utils/activation_offload.py:263-395 | any number of training steps in a row return what was pushed and leave the handler as at the beginning |
| OffloadSteps.ContiguousViewsAreFaithful | verl/verl/utils/activation_offload.py:35-37 | contiguous tensors in storages that do not overlap meet that condition if those that start together are equally large |
| OffloadSteps.TransposeIsUnfaithful | verl/verl/utils/activation_offload.py:298-317 | a matrix saved next to its transpose does not |
| OffloadSteps.ForwardFewLive | verl/verl/utils/activation_offload.py:331-345 | at every point of the forward pass at most L - G + 1 groups occupy the device, two if G = L - 1 |
| OffloadSteps.BackwardFewLive | verl/verl/utils/activation_offload.py:373-395 | the same at every point of the backward pass |
| OffloadSteps.FullOffloadKeepsAll | verl/verl/utils/activation_offload.py:319-345 | with G = L every tensor of a group after the first stays on the device |
| OffloadStreams.StreamsAreSafe | verl/verl/utils/activation_offload.py:319-395 | for every number of groups up to that of layers and at every point of a step no copy or kernel runs too early, in terms of the order of what is enqueued: a copy-out waits for all kernels that compute the group, the release waits for the copy-out, the copy-in for the release, and a pop for the copy-in |
| OffloadStreams.ReleasedIff | verl/verl/utils/activation_offload.py:298-345 | at the end of the forward pass a group's memory has been freed on the device if and only if the group is offloaded, has tensors, and is the first one or not every layer is offloaded |
| ReplayBuffer.Buffer.constructor | verl/verl/trainer/main_ppo_sync.py:201-209 | no partition has an entry at first |
| ReplayBuffer.Buffer.Add | verl/verl/trainer/main_ppo_sync.py:236-249 | every item's tags are merged into one partition, all other partitions stay |
| ReplayBuffer.Buffer.Remove | verl/verl/trainer/main_ppo_sync.py:251-263 | exactly the given keys disappear from one partition |
| ReplayBuffer.Buffer.SampleOnce | verl/verl/trainer/main_ppo_sync.py:265-294 | a round that does not fail waits exactly if some key of the step is running, and otherwise returns every successful key of the step once; it fails on wrong arguments, and otherwise only if a tag lacks its step |
| ReplaySafety.StepInv | verl/verl/trainer/main_ppo_sync.py:211-294 | every action of dispatcher, agent loops, poller and trainer keeps the invariant |
| ReplaySafety.SampleIsExact | verl/verl/trainer/main_ppo_sync.py:283-294 | under every interleaving a sample is returned only after all prompts of the step have finished, and is exactly the outputs of all their sessions |
| ReplaySafety.TrainsOnTheStep | verl/verl/trainer/main_ppo_sync.py:1672-1678 | what is trained on and cleared is exactly the step's outputs, so keys that a stale poll puts back are never used later |
| ReplaySafety.QueueStaysClear | verl/verl/trainer/main_ppo_sync.py:1672-1678 | once a step has been cleared none of its outputs is ever in the transfer queue again, in every run |
| ReplaySafety.ClearsTheStep | verl/verl/trainer/main_ppo_sync.py:251-263 | clearing the buffer takes exactly the outputs of the step out of it |
| ReplaySafety.TagsHaveSteps | verl/verl/trainer/main_ppo_sync.py:283-284 | the sampler's lookup of the step never misses |
| ReplaySafety.SampleReturns | verl/verl/trainer/main_ppo_sync.py:211-221 | once all prompts of the step have finished the sampler returns after the next poll |
| ReplaySafety.StaleKeysComeBack | verl/verl/trainer/main_ppo_sync.py:1672-1673 | some run does put removed keys back into the buffer |
| SessionKeys.RsplitFormat | verl/verl/trainer/main_ppo_sync.py:422 | splitting a key from the right undoes its formatting, whatever underscores the uid has |
| SessionKeys.FormatInjective | verl/verl/trainer/main_ppo_sync.py:419-422 | different outputs have different keys |
| SessionKeys.ParseIntIff | verl/verl/trainer/main_ppo_sync.py:156 | a string of digits is read as its value to the base of ten, every digit times the power of its place; anything else is refused |
| SessionKeys.DecimalValue | verl/verl/trainer/main_ppo_sync.py:422 | a formatted number has its decimal value and no leading zeros |
| SessionKeys.RowOfFormat | verl/verl/trainer/main_ppo_sync.py:152-160 | reading the row of a formatted key gives the session and the index it was made of |
| SessionKeys.SelectFinals | verl/verl/trainer/main_ppo_sync.py:152-171 | one final row per session, the first with the largest index, and for every row the place of its session's final row; Err exactly if a key cannot be parsed |
| SessionKeys.RowsShareFinal | verl/verl/trainer/main_ppo_sync.py:171-191 | rows get the same score exactly if they are of one session, and a final row its own |
| SessionKeys.ValidationFinals | verl/verl/trainer/main_ppo_sync.py:895-911 | for any keys, the positions kept are, in ascending order, those of the first entry with the largest index of every session since a key with fewer fields reset it; for keys of the written format these are exactly the final rows; it fails exactly if a last field is no number |
| SessionKeys.SameFinals | verl/verl/trainer/main_ppo_sync.py:895-911 | training and validation select the same rows |
| PipelineShards.GetDynamicPipelineShards | verl/verl/model_merger/megatron_model_merger.py:57-98 | the search over all middle stages and the stable sort find the closed form or fail where it fails; there is a shard per rank, all middle stages are equal, the last stage has as many layers as the first or one more, and their difference to the middle ones is the least of all candidates |
| PipelineShards.SucceedsIff | verl/verl/model_merger/megatron_model_merger.py:79-96 | the search succeeds exactly if every rank can have a layer and, for three ranks or more, some candidate exists, that is, if the ceiling m of layers per rank satisfies m * (P - 2) <= L - 2 |
| PipelineShards.ShardsCoverLayers | verl/verl/model_merger/megatron_model_merger.py:57-98 | the shards are one per rank, at least one layer each, and add up to all layers |
| PipelineShards.ShardsAreEven | verl/verl/model_merger/megatron_model_merger.py:57-66 | no other way of giving the layers to the ranks has a smaller largest stage |
| PipelineShards.NineOnEightFails | verl/verl/model_merger/megatron_model_merger.py:79-96 | nine layers on eight ranks: no candidate |
| LayerPlacement.ExactlyOneRank | verl/scripts/converter_hf_to_mcore.py:575-578 | the prefix sums of the shards tile the layers: every layer is in the range of exactly one rank |
| LayerPlacement.ConvertLayers | verl/scripts/converter_hf_to_mcore.py:145-151 | a rank is filled with exactly its range of layers, or the conversion fails if the numbers differ |
| LayerPlacement.MergeStateDicts | verl/verl/model_merger/megatron_model_merger.py:358-420 | entries of any order get the number of their dictionary's offset plus their local number |
| LayerPlacement.MergedIff | verl/verl/model_merger/megatron_model_merger.py:358-420 | merging gives exactly the layers of all dictionaries: layer j of a dictionary gets the start plus the layers before it plus one for every dictionary without layers before it plus j |
| LayerPlacement.NumbersAreContiguousIff | verl/verl/model_merger/megatron_model_merger.py:367-418 | numbering runs on without gaps exactly if no dictionary is without layers |
| LayerPlacement.MergeUndoesConversion | verl/verl/model_merger/megatron_model_merger.py:358-420 | merging gives every converted layer back under its global number, and each comes from exactly one rank |
| LayerPlacement.LocalExperts | verl/scripts/converter_hf_to_mcore.py:183-200 | the loop copies exactly the rank's own experts, the k-th of them to local place k |
| LayerPlacement.EveryExpertCopiedIff | verl/scripts/converter_hf_to_mcore.py:183-200 | every expert is copied by some rank, and by one only, if and only if the ranks divide the experts |
| QkvLayout.SplitQkv | verl/verl/model_merger/megatron_model_merger.py:330-354 | a tensor is accepted exactly if it has a whole number of rows for every head, and the result is laid out in it by position: in group g first the query rows, then as many key rows, then as many value rows |
| QkvLayout.MergeAcrossTp | verl/scripts/legacy_model_merger.py:535-562 | the nested loops over blocks and chunks succeed exactly if the first block has a whole number of rows for every head of its groups and the others can be chunked into groups of that size, and the result is laid out by position in the blocks, one after the other |
| QkvLayout.MergeLays | verl/scripts/legacy_model_merger.py:535-562 | the condition and the layout for the specification function, naming neither the converter nor the parts |
| QkvLayout.EqualBlocksLay | verl/scripts/legacy_model_merger.py:535-562 | with equal blocks, every rank's block has by position its own part of query, of key and of value |
| QkvLayout.InterleaveLays | verl/scripts/converter_hf_to_mcore.py:155-160 | the converter succeeds exactly if the rows can be grouped by key-value heads, and row i of group g of query, key and value is then at its place in group g of the tensor |
| QkvLayout.MergeUndoesInterleave | verl/scripts/converter_hf_to_mcore.py:155-168 | interleaving lays out query, key and value by position; cutting the rows for any number of ranks that divides the key-value heads, and merging, gives them back |
| GateUpLayout.SplitUndoesConcatIff | verl/verl/model_merger/megatron_model_merger.py:320-329 | gate and up come apart again exactly if they are equally large, or gate has one row more |
| GateUpLayout.MergeGateUp | verl/scripts/legacy_model_merger.py:523-534 | the loop fails exactly if there is no block or one of a single row, and otherwise joins the first and the second halves of all blocks |
| GateUpLayout.HalvesAre | verl/scripts/legacy_model_merger.py:523-534 | the halves of a block by position; an odd row belongs to the first |
| GateUpLayout.MergeUndoesPairedCut | verl/scripts/legacy_model_merger.py:523-534 | blocks with the same part of gate and of up are merged correctly |
| GateUpLayout.ContiguousCutUndoneIff | verl/scripts/legacy_model_merger.py:523-534 | the merger needs the paired cut: blocks cut contiguously out of gate and up are merged correctly, for all gates and ups, if and only if there is one rank |
| DataProto.SliceRows | verl/verl/protocol.py:675-719 | a slice cuts tensor and non-tensor columns at the same rows |
| DataProto.ConcatRows | verl/verl/protocol.py:916-961 | a concatenation has the rows of all parts one after the other |
| DataProto.ChunkRows | verl/verl/protocol.py:864-903 | a batch is cut exactly if it can be cut evenly, and part j of k has the rows from j * m to (j + 1) * m |
| DataProto.RowsLoseNothing | verl/verl/protocol.py:675-719 | a batch is determined by its columns and its rows, so statements about rows are statements about every tensor and non-tensor column |
| DataProto.ConcatUndoesChunk | verl/verl/protocol.py:864-903 | there are as many chunks as asked for, and joined they are the batch |
| DataProto.PadToDivisor | verl/verl/protocol.py:74-98 | the padded length is the least multiple that is large enough, and row i of the padded batch is row i mod n of the original |
| DataProto.DispatchIsRowWise | verl/verl/protocol.py:74-106 | padding, chunking, row-wise work, joining and unpadding has exactly the worked-on rows of the batch |
| BoxedAnswer.StaysOpenIff | deepscaler/rewards/math_utils/utils.py:394-407 | counting braces from the left agrees with the depth of every prefix |
| BoxedAnswer.DepthCounts | deepscaler/rewards/math_utils/utils.py:394-407 | the depth is the number of opening braces minus that of closing ones |
| BoxedAnswer.ScanExact | deepscaler/rewards/math_utils/utils.py:394-407 | from any place, whether or not it is a brace, the scan ends at the first closing brace at which the count is zero |
| BoxedAnswer.ScanFindsMatch | evaluation/verifier.py:18-25 | from an opening brace the scan finds a closing one exactly if what lies between is balanced |
| BoxedAnswer.LastBoxedOnlyString | deepscaler/rewards/math_utils/utils.py:387-412 | the loop returns the text from the last box up to its matching brace |
| BoxedAnswer.LastBoxedIff | deepscaler/rewards/math_utils/utils.py:387-412 | the text returned begins at the last `\boxed`, or without one at the last `\fbox`, and ends with the first closing brace at which the count is zero; otherwise nothing is returned |
| BoxedAnswer.ExtractsLastBoxIff | deepscaler/rewards/math_utils/utils.py:387-428 | the extraction returns s if and only if the last `\boxed` of the text encloses s and s is balanced |
| BoxedAnswer.FindFirstBoxedEnd | evaluation/verifier.py:5-27 | the end lies just past the brace that encloses balanced text with the first opening brace behind the first `\boxed`, and nothing is returned if there is no such box |
| BoxedAnswer.ExtractFirstBoxedContent | evaluation/verifier.py:88-113 | the content of that first box without the white space at its two ends, and nothing if there is no such box |
| BoxedAnswer.StripStrips | evaluation/verifier.py:111 | stripping takes white space off both ends and leaves none there |
| BoxedAnswer.FirstBoxExact | evaluation/verifier.py:5-27 | the scanner finds exactly the first opening brace behind the first `\boxed` and the brace that encloses balanced text with it |
| BoxedAnswer.FirstBoxIs | evaluation/verifier.py:5-27 | what the verifier takes from a box lies between matching braces and is balanced |
| BoxedAnswer.ScannersAgreeIff | evaluation/verifier.py:88-113 | on a text with a single `\boxed` the scanners agree if and only if a brace follows it at once or the first brace anywhere behind it does not enclose balanced text |

## Left out

- The relays are modelled on values, as step relations, because their ranks run side by side; only the packing and
  merging loops and the sender's two buffers are objects that are updated in place.
- Sockets, ZeroMQ, Ray, RDMA and NCCL calls and CUDA kernels: they appear as single steps over bytes.
- The HCCL and Kimi engines, and the multi-peer dispatch of NIXL notifications (in the chain each rank has one
  notifier).
- MooncakeSafety.StepInv: the four bytes of an acknowledgement arrive in one step, every bucket has at least four bytes,
  and weights have distinct names; conversion to the rollout dtype is left out.
- MooncakeRuns.ReturnsAfterAcksIff: says nothing about runs in which an earlier payload, whose buffer is used again,
  starts with the magic word; buckets are then overwritten early anyway (`MooncakeRuns.MagicPayloadIsOverwritten`).
- WeightChunks.Merger.Accept: a chunk whose bytes are not as many as its metadata says, or that overruns its weight, is
  refused; torch accepts some of them by broadcasting or clipping. Receivers cut chunks by that very metadata.
- Failed training steps, nested forward passes and several live forward passes on one offload handler, the synchronous
  base handler's own push and pop, and dtype conversions of the copies.
- ActivationOffload.AsyncOffloadHandler.BulkReloadGroup: where the allocator places reloaded tensors is a parameter;
  device memory and streams are an event log, not a machine.
- ReplaySafety.SampleIsExact: assumes that a listing of the transfer queue is atomic and that no prompt fails; a failed
  prompt's sessions may publish late. Several validation batches at one step are left out.
- ReplaySafety.TrainsOnTheStep: under REMAX the baseline keys of a step are also cleared and removed in its middle
  (`main_ppo_sync.py:1247-1248`); the protocol has no such action.
- ReplayBuffer.Buffer.SampleOnce: the order of the returned keys, which is the insertion order of a dictionary.
- SessionKeys.SelectFinals: the order of the final rows, which is that of a dictionary; `int` accepts more than decimal
  digits; such keys are never produced. The advantage computation itself is not part of this model.
- LayerPlacement.MergeStateDicts: names are reduced to layer numbers; the renaming tables are left out.
- QkvLayout.MergeUndoesInterleave: one tensor at a time, as the sequence of its rows; the checks of dtype and shape in
  the copy are left out.
- DataProto.DispatchIsRowWise: batches without rows, `meta_info` and its metrics, automatic padding in `chunk`, and
  `repeat` and `sample_level_repeat`, which are single index formulas.
- Sympy and LaTeX parsing, thousands separators, tokenizers, checkpoint files, FLOPs estimates, expert merging and FSDP
  shards.
