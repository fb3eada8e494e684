# Verified models of the edge0 runtimes

Dafny models of the parts of edge0 whose correctness is hardest to see from the code: two on-device
mixture-of-experts engines (8B and 35B, Swift and MLX), the Windows expert pool (C++), and the converter and
packer that feed them (Python). Every model follows the branches, limits and error conditions of the code it
cites; code that updates objects, arrays or files in place is a class or a loop here too, proved against a
specification, and what the code promises is proved about that specification.

`dafny verify dfyconfig.toml` checks the whole project.

## What is modelled

| Files | Subject |
|---|---|
| `ExpertPool`, `ExpertPoolSafety`, `ExpertPoolTheorems`, `ExpertPoolProgress`, `ExpertPoolUse` | The private-page expert pool: any number of resolver and prefill threads taking atomic steps over slot states, per-slot locks and condition variables, one file lock and one shared file handle. Seek and read are separate steps, a read may scribble before it completes, and any file call may fail. Transparency, single fill, budgets, no lost wake-up, no deadlock, bounded steps, and that experts do get pooled: only for want of room when the file calls succeed, all of them when all fit. |
| `PinRows`, `PinWalk`, `PinLoss`, `PinBlock`, `PinSingle`, `PinForm`, `PinTable` | The age-based pin table with two regions, exact accounts, caps and eviction: what a step makes of it, when anything is evicted, when a range in the table is lost, also computed before the step, and when a range is refused although something could be evicted. |
| `Machines`, `GatedDelta`, `Kda`, `Mla`, `Routing`, `Streaming8B` | The 8B engine: feeding a prompt in chunks, layer by layer, against feeding it token by token, down to the kernel's lanes, the convolution windows, the causal mask and the sorted expert gather. |
| `Recency`, `BundleCache`, `Staging`, `Prerouting` | The expert cache, the two-phase staging of predicted experts, and the step boundary that keeps predictions one step old. |
| `Bpe`, `BpeAgreement`, `ByteLevel`, `Tokenizer8B`, `Tokenizer35B` | Both tokenizers: when the two merge loops agree, and what encoding and decoding keep. |
| `PrefixEngine`, `PrefixStore` | The 35B chat engine with its persisted prefix state. |
| `ExpertFiles`, `ExpertLoader` | Packing experts into layer files, reading them with short reads, stacking them, and the row every routed pair uses. |
| `GgufFormat`, `GgufWriter`, `GgufCppReader`, `GgufPyReader`, `GgufCut`, `GgufRoundTrip` | The two-pass GGUF writer against the C++ parser and the Python check, the latter also on files cut off anywhere (GGUF specification v3, ggml `docs/gguf.md`, section "File Structure"). |
| `Q41`, `Adapter` | The Q4_1 repack with its exempt blocks, and the block-diagonal adapter merge over the row interleave. |
| `Common`, `Indexing`, `Vectors`, `Runs` | Shared datatypes, positions in flat tables, rows of reals and finite sums, runs of ids laid end to end. |

## Where the code does less than it says, or needs a hypothesis

- The two merge loops agree whenever every pair that uses a merged token ranks above every pair that makes it;
  without that order they can differ (`BpeAgreement.OrderMatters`). The 35B whole-piece shortcut agrees exactly
  when the merges build the whole piece anyway (`BpeAgreement.AgreementExactly`, both directions).
- A special text of the 8B tokenizer need not decode to itself: it does exactly when each of its characters is
  ASCII or stands for no byte, and a text comes back exactly when every special token in it does
  (`Tokenizer8B.ReadableExactly`, `Tokenizer8B.RoundTrip`; U+00E9 in `Tokenizer8B.LatinLost`).
- In the 35B tokenizer a character without an id is dropped silently (`Tokenizer35B.BpeSpellsExactly`, both
  directions).
- `check_gguf_head` compares the file length with offsets that leave out the header and, for plain types, the
  element size, and what is missing reads as nothing: an absent record as one without a name that reaches one
  byte, a number short of bytes as a smaller number. Which cuts it lets through is exact for every length, the
  header's own bytes included (`GgufRoundTrip.CutPasses`). The 24 bytes of the preamble alone pass, the whole
  tensor table and all data gone, whatever number of tensors they promise (`GgufCut.PreambleAlone`); so does every
  finished file whose end is missing up to the length of the data start (`GgufRoundTrip.TailUnseen`). Less can
  pass where more does not (`GgufRoundTrip.LessPasses`).
- A `general.alignment` other than the writer's 32 moves the data start of the C++ parser unless it meets the
  condition of `GgufRoundTrip.CppDataStart`, and zero is a division by zero; what the repack registers always
  wins (`GgufRoundTrip.RegisteredAlignment`).
- The comment at windows/serve/prefetch.cc:457-459 says the hot zone is touched every step and never ages. A
  hot range in the table and wanted again can be evicted before its consumer's turn
  (`PinTable.EvictedBeforeItsTurn`). When it is, is exact for every table and demand (`PinTable.HotLostExactly`)
  and, for demands without repeated ranges, a sum over table and demand before the step (`PinForm.HeldThenLost`).
  A demand that the table holds evicts nothing (`PinTable.SteadyHot`).
- The eviction loop stops at an entry that frees nothing, so a range can be refused beside a stale entry
  (`PinTable.NothingFreed`): exactly when a stale entry of no length is reached before the range fits and another
  stale entry is behind it (`PinBlock.RefusedBesideExactly`). An entry has no length when its tensor has a type
  `tt_bytes` does not list (windows/serve/prefetch.cc:72-86), or fewer bytes than experts.
- A group of the Q4_1 repack is exempted when its scale or bias rounds off. The two sides then differ in it, but
  for a group of a single code at which the roundings cancel (`Q41.ExemptExactly`).
- The row interleave uses every source row once exactly when n_v = 2 n_k (`Adapter.InterleaveExactly`); the
  code does not check it.
- `LingPrerouter` prefers a row remembered from an earlier step over the last but one row of a later chunk
  (ios/Sources/Edge0MLX/LingPrerouter.swift:36-88). `pendingError` of `StreamingMoE` is never set to an error,
  so the model has no such field.

## Model

| member | source | states |
|---|---|---|
| `ExpertPool.WriteBlockReads` | windows/serve/prefetch.cc:354-359 | Filling one expert's pages leaves every other expert's pages in the same arena as they were |
| `ExpertPoolSafety.ScheduleInv` | windows/serve/prefetch.cc:305-400 | The protocol invariant (who holds which lock, who claimed which slot, what is charged, ready pages equal the file) holds in every state of every schedule of any number of resolver calls and prefill passes, whatever the file calls return |
| `ExpertPoolSafety.ReadKeeps` | windows/serve/prefetch.cc:358-359 | Because seek and read are separate steps paired by the one file lock, a read that succeeds lands the slot's own part of the file in the slot |
| `ExpertPoolTheorems.ResolverTransparent` | windows/serve/prefetch.cc:305-370 | In every schedule, once a resolver call has returned, the bytes at the address it returned are, then and at every later step, the ones the un-pooled engine reads from the file |
| `ExpertPoolTheorems.ActionForward` | windows/serve/prefetch.cc:273 | Any one action moves a slot along one edge of 0 to 1 to 2 or 3, or leaves it, and never changes who claimed it |
| `ExpertPoolTheorems.SlotsAdvance` | windows/serve/prefetch.cc:319-365 | Over any stretch of a run a slot only advances, and its one claimer stays the same |
| `ExpertPoolTheorems.FillsBounded` | windows/serve/prefetch.cc:340-343 | Over a whole run there are at most as many fills as slots |
| `ExpertPoolTheorems.BudgetsExact` | windows/serve/prefetch.cc:353-360 | Each byte budget is the sum over the slots charged to it and under its cap; every ready slot is charged exactly once, empty and refused slots never |
| `ExpertPoolTheorems.AsleepMeansFilling` | windows/serve/prefetch.cc:320-326 | No lost wake-up: a sleeping resolver's slot has its filler still before the wake-up call, even when the slot is already 2 or 3 |
| `ExpertPoolTheorems.SomeThreadRuns` | windows/serve/prefetch.cc:320-367 | No deadlock without the 2000 ms time-out: while a call is open, some thread can take a step |
| `ExpertPoolTheorems.StuckMeansDone` | windows/serve/prefetch.cc:318-369 | A run in which no thread can step has answered every call |
| `ExpertPoolProgress.StepsBounded` | windows/serve/prefetch.cc:318-400 | Under any interleaving, fair or not, the number of steps is bounded by the calls made and the sleeps that timed out |
| `ExpertPoolUse.AnswerExactly` | windows/serve/prefetch.cc:318-369 | In every schedule a finished resolver call answers with the pool if and only if the expert is in the table and its slot is 2; any other finished call for an expert in the table leaves its slot at 3 |
| `ExpertPoolUse.ReadyAnswersPooled` | windows/serve/prefetch.cc:329-336 | Once a slot is 2, every call for it that finishes later answers with the pool |
| `ExpertPoolUse.RefusedForRoom` | windows/serve/prefetch.cc:353-365 | Where every commit, seek and read succeeds, a slot ends at 3 only for want of room: while it was being filled, the charged bytes of the filler's region plus its own length exceeded the cap |
| `ExpertPoolUse.EverythingPooled` | windows/serve/prefetch.cc:340-368 | Where moreover all experts together fit each cap, every finished call for an expert in the table answers with the pool and leaves its slot at 2 |
| `ExpertPoolUse.PrefillVisits` | windows/serve/prefetch.cc:374-400 | A finished prefill pass leaves none of the experts it was given unclaimed |
| `PinTable.Table.FindOldest` | windows/serve/prefetch.cc:468-474 | The scan finds the entry the walk takes next: of the region, with the largest age, the first in consumer order among equals, never one touched this step; none exactly when none is stale |
| `PinTable.Table.Evict` | windows/serve/prefetch.cc:468-478 | Eviction removes that entry alone and takes exactly its length off the region's account |
| `PinTable.Table.MakeRoom` | windows/serve/prefetch.cc:512-516 | The eviction loop ends with room, with nothing stale left, or on an entry that freed nothing, exactly as computed from the table and for exactly the reason of `FreedNothingExactly`; it evicts if and only if the range does not fit and something is stale; the refusal counter goes up exactly when there is no room |
| `PinTable.Table.PinRange` | windows/serve/prefetch.cc:512-519 | The table becomes what the walk says of one pin; something is evicted if and only if the range overflows; it is refused beside a stale entry exactly as in `RefusedBesideExactly`; the other region is not charged |
| `PinTable.Table.Serve` | windows/serve/prefetch.cc:503-521 | After a consumer's turn the table is what the walk says; something is evicted if and only if one of its missing ranges overflows; without zero-length entries each range is in its row and touched, or refused because nothing stale is left and it does not fit |
| `PinTable.Table.IssueRegion` | windows/serve/prefetch.cc:501-522 | The same for all consumers in order; serving one region never charges the other |
| `PinTable.IssuePool` | windows/serve/prefetch.cc:479-541 | The table after a step, low-memory shrink included, is computed from table and demand; both accounts are exact and within their caps; something is evicted if and only if, walking the consumers in order, some missing range does not fit beside the bytes then held while an entry not yet touched is there, or memory is low and the shrink finds a region too large with such an entry |
| `PinBlock.FreedNothingExactly` | windows/serve/prefetch.cc:512-516 | The eviction loop ends on an entry that freed nothing if and only if some stale entry of no length is reached: the range does not fit beside what eviction takes no sooner, and no other entry of no length goes before |
| `PinBlock.RefusedBesideExactly` | windows/serve/prefetch.cc:512-517 | A range is refused with a stale entry left if and only if such an entry is reached and another stale one is behind it |
| `PinBlock.ShrunkNothingExactly` | windows/serve/prefetch.cc:533-538 | The shrinking loop ends on an entry that freed nothing under the same condition, with what low memory leaves in place of the cap |
| `PinBlock.LeftTooLargeExactly` | windows/serve/prefetch.cc:533-538 | It leaves the region too large with a stale entry in it if and only if such an entry is reached and another stale one is behind it |
| `PinWalk.OneOldest` | windows/serve/prefetch.cc:468-474 | The entry the eviction takes is determined by the table |
| `PinTable.SteadyHot` | windows/serve/prefetch.cc:499-522 | A hot demand that the table holds evicts nothing, even with the cap reached |
| `PinLoss.LostExactly` | windows/serve/prefetch.cc:499-522 | A range in the table is lost before its consumer's turn if and only if, walking the consumers before it, some missing range does not fit beside it and the entries eviction takes no sooner (touched, younger, or as old and later in consumer order), and no entry of zero length goes before it and ends the eviction |
| `PinTable.HotLostExactly` | windows/serve/prefetch.cc:457-459 | The same for a hot range at the start of a step, before the entries age |
| `PinForm.LostInAdvance` | windows/serve/prefetch.cc:499-522 | Without repeated ranges a range in the table is lost before its consumer's turn if and only if what guards it at the start, and all bytes the earlier consumers want and do not hold in younger entries, exceed the cap together |
| `PinForm.HeldThenLost` | windows/serve/prefetch.cc:499-522 | The same sum, taken over the table before its entries age |
| `PinTable.StepSingle` | windows/serve/prefetch.cc:503-520 | A step whose demand names no range twice keeps every row free of repeated ranges, shrink included |
| `PinTable.BusyLoses` | windows/serve/prefetch.cc:499-522 | At the witness the range is held before the step, wanted in it, and gone when its consumer's turn comes |
| `PinTable.Shrink` | windows/serve/prefetch.cc:531-539 | The low-memory loop ends small enough, with nothing stale, or on an entry that freed nothing, exactly as computed; it evicts if and only if the region is too large and holds a stale entry; nothing touched this step is dropped |
| `PinTable.NothingFreed` | windows/serve/prefetch.cc:512-516 | Three steps from an empty table: a zero-length oldest entry ends the eviction loop, and a range is refused beside a stale entry |
| `PinTable.EvictedBeforeItsTurn` | windows/serve/prefetch.cc:457-459 | Two steps from an empty table, against the comment there: a hot range in the table and wanted again is evicted before its consumer's turn, and then refused |
| `Machines.RunSplit` | ios/Sources/Edge0MLX/StreamingEdge0Model8B.swift:199-231 | Splitting a sequence anywhere changes neither outputs nor state, for every layer and for the whole model |
| `Machines.AnyChunking` | ios/Sources/Edge0MLX/Edge0ChatEngine.swift:116-144 | Nor does any cutting into chunks |
| `Machines.RunTraced` | ios/Sources/Edge0MLX/Edge0ChatEngine.swift:116-144 | A run is the chain of single steps, each from the state the one before left |
| `Machines.ThroughTraced` | ios/Sources/Edge0MLX/StreamingEdge0Model8B.swift:178-184 | A token rises through the layers as a chain, each layer taking what the one below put out and moving its own cache |
| `Machines.Interchange` | ios/Sources/Edge0MLX/StreamingEdge0Model8B.swift:170-231 | Layers outside and tokens inside gives the outputs and the states of tokens outside and layers inside |
| `GatedDelta.KernelCell` | ios/Sources/Edge0MLX/OfficialGatedDelta.swift:8-77 | A thread group's column of the output and row of the state are those of the token-by-token gated delta rule: the 32-lane split of both dot products and the moving pointers change nothing |
| `GatedDelta.StepAt` | ios/Sources/Edge0MLX/OfficialGatedDelta.swift:33-60 | One turn of the time loop, both halves over 32 lanes, is one step of the rule |
| `GatedDelta.RuleIs` | ios/Sources/Edge0MLX/OfficialGatedDelta.swift:43-56 | One step of the rule in sums: the decayed row read along the key is taken from the value, beta scales the rest, and that is written back along the key |
| `GatedDelta.OutputIs` | ios/Sources/Edge0MLX/OfficialGatedDelta.swift:52-60 | The output is the new row read along the query |
| `Kda.ConvPrefillIsSteps` | ios/Sources/Edge0MLX/StreamingKDADecoderBlock.swift:233-246 | Convolving a chunk at once gives every row, and the history left, that convolving it token by token gives |
| `Kda.HistorySlides` | ios/Sources/Edge0MLX/StreamingKDADecoderBlock.swift:187-197 | The history after any number of tokens is the last three projected rows, zeros before the first |
| `Kda.ConvStepIs` | ios/Sources/Edge0MLX/StreamingKDADecoderBlock.swift:187-197 | An entry of a convolved row is x times sigmoid of x for the weighted sum x down its own channel of the last four rows; the window slides by one |
| `Kda.FeedIs` | ios/Sources/Edge0MLX/StreamingKDADecoderBlock.swift:205-224 | Cell d of head h is fed its head's stretch of q, k and decay, its own v and its head's beta |
| `Kda.KdaStepIs` | ios/Sources/Edge0MLX/StreamingKDADecoderBlock.swift:199-231 | One token convolves q, k and v over their own histories, scales q and k, moves every cell by the rule on its feed, and projects what all cells read out |
| `Kda.ChunkIsSteps` | ios/Sources/Edge0MLX/StreamingKDADecoderBlock.swift:248-284 | Prefilling T tokens gives the outputs, the three histories and the recurrent state of T single steps, from any cache |
| `Kda.KdaStateCache.Attend` | ios/Sources/Edge0MLX/StreamingKDADecoderBlock.swift:199-231 | One token updates the cache object as one step of the KDA machine |
| `Kda.KdaStateCache.AttendChunk` | ios/Sources/Edge0MLX/StreamingKDADecoderBlock.swift:248-284 | A chunk updates the cache object as a run of single steps over it |
| `Kda.Launch` | ios/Sources/Edge0MLX/OfficialGatedDelta.swift:92-112 | The launch over the whole grid moves every row of the state and fills every column of the output |
| `Mla.CausalIsPrefix` | ios/Sources/Edge0MLX/StreamingMLADecoderBlock.swift:208-252 | A row of causally masked attention over the whole chunk is attention without a mask over the keys that were there at its turn |
| `Mla.AttentionIs` | ios/Sources/Edge0MLX/StreamingMLADecoderBlock.swift:197-200 | An entry of a head is the mean of its channel of all values, each weighed by its own key's score |
| `Mla.ChunkIsSteps` | ios/Sources/Edge0MLX/StreamingMLADecoderBlock.swift:208-254 | Prefilling a chunk gives the rows, keys, values and count of single steps, positions included |
| `Mla.MlaKvCache.Append` | ios/Sources/Edge0MLX/StreamingMLADecoderBlock.swift:20-35 | The cache grows by exactly the new rows and hands out all of them |
| `Mla.MlaKvCache.Attend` | ios/Sources/Edge0MLX/StreamingMLADecoderBlock.swift:169-205 | One token appends its key, rotated for its own position, and its value, and attends over all of them, itself included |
| `Mla.MlaKvCache.AttendChunk` | ios/Sources/Edge0MLX/StreamingMLADecoderBlock.swift:208-252 | A chunk updates the cache object as a run of single steps over it |
| `Routing.ArgSortInverts` | ios/Sources/Edge0MLX/StreamingMoE.swift:450-452 | The second argsort is the inverse permutation of the first, both ways |
| `Routing.SortedExpertsAscend` | ios/Sources/Edge0MLX/StreamingMoE.swift:450-460 | The expert list passed to the kernel never descends |
| `Routing.OwnOutput` | ios/Sources/Edge0MLX/StreamingMoE.swift:448-467 | After unsorting, output i of token t is that token's own i-th expert on its own row |
| `Routing.FullLayerPrefill` | ios/Sources/Edge0MLX/StreamingMoE.swift:434-474 | Full-layer prefill gives every token the routed sum of the one-token gathered path |
| `Routing.StackedIsRouted` | ios/Sources/Edge0MLX/StreamingMoE.swift:393-415 | Slots that lead to the named experts give the weighted sum of the named experts plus the shared one |
| `Routing.RoutedIs` | ios/Sources/Edge0MLX/StreamingMoE.swift:412-414 | Entry by entry the routed sum is each named expert's output times its own weight, added up, plus the shared expert's |
| `Streaming8B.Finish` | ios/Sources/Edge0MLX/StreamingMLADecoderBlock.swift:151-157 | Both residual additions entry by entry: the row plus its attention, then that plus the feed-forward of its norm |
| `Streaming8B.StepLayer` | ios/Sources/Edge0MLX/StreamingKDADecoderBlock.swift:110-145 | One token through a layer: the cache moves one step of the attention machine, and the row is its input plus that step's output plus the feed-forward of the norm of the sum |
| `Streaming8B.PrefillLayer` | ios/Sources/Edge0MLX/StreamingKDADecoderBlock.swift:149-179 | A layer over a chunk is a run of the layer's single steps, and every row is, entry by entry, its input plus its attention plus the feed-forward of the norm of that sum, the attention taken from the state its predecessors left |
| `Streaming8B.StreamingModel.Decode` | ios/Sources/Edge0MLX/StreamingEdge0Model8B.swift:170-194 | One token goes through all layers, each cache moving one step; an id outside the vocabulary changes nothing |
| `Streaming8B.StreamingModel.SweepLayers` | ios/Sources/Edge0MLX/StreamingEdge0Model8B.swift:210-226 | Layer after layer over the whole chunk ends in the states and rows of token after token; never more than one full expert stack is in memory, and none afterwards |
| `Streaming8B.StreamingModel.Prefill` | ios/Sources/Edge0MLX/StreamingEdge0Model8B.swift:199-231 | The last-token logits and all caches are those of feeding the tokens one at a time; a short or unknown prompt changes nothing |
| `Streaming8B.StreamingModel.Reset` | ios/Sources/Edge0MLX/StreamingEdge0Model8B.swift:265-269 | Every layer forgets everything |
| `Streaming8B.FeedPrompt` | ios/Sources/Edge0MLX/Edge0ChatEngine.swift:108-144 | However the prompt is cut into chunks, its logits and the model's caches are those of token-by-token feeding; an empty prompt is refused, a cancelled one leaves the model empty, a failed one where it stood after the last whole chunk |
| `Streaming8B.StreamingModel.Swap` | ios/Sources/Edge0MLX/StreamingEdge0Model8B.swift:212-213 | Dropping the previous layer first keeps at most one full expert stack in memory, the right one |
| `Recency.KeptExactly` | ios/Sources/Edge0MLX/StreamingMoE.swift:24-63 | A key is kept if and only if fewer than `capacity` other keys were used since its own last use |
| `Recency.RecentAscends` | ios/Sources/Edge0MLX/StreamingMoE.swift:34-62 | The list stays in the order of last use |
| `Recency.KeptGrows` | ios/Sources/Edge0MLX/StreamingMoE.swift:24-63 | The larger of two capacities keeps all that the smaller keeps |
| `BundleCache.ExpertBundleCache.Get` | ios/Sources/Edge0MLX/StreamingMoE.swift:34-45 | A lookup hits exactly the keys in the list, returns the value last put, and counts as a use |
| `BundleCache.ExpertBundleCache.Put` | ios/Sources/Edge0MLX/StreamingMoE.swift:47-57 | After any trace table and list agree and hold exactly the last `capacity` distinct keys used; capacity 0 keeps nothing |
| `BundleCache.AccessAll` | ios/Sources/Edge0MLX/StreamingMoE.swift:306-319 | A whole get-then-put-on-miss trace hits exactly where the key is among the last `capacity` distinct keys used before |
| `BundleCache.HitsStay` | ios/Sources/Edge0MLX/StreamingMoE.swift:24-63 | Every hit stays a hit in a larger cache |
| `BundleCache.AccessBoth` | ios/Sources/Edge0MLX/StreamingMoE.swift:306-319 | Run on one trace, a smaller and a larger cache hit so that every hit of the smaller is a hit of the larger |
| `Staging.StreamingMoE.Activate` | ios/Sources/Edge0MLX/StreamingMoE.swift:264-282 | The pending set becomes active exactly when it is the set wanted; otherwise nothing changes |
| `Staging.StreamingMoE.ResolveExperts` | ios/Sources/Edge0MLX/StreamingMoE.swift:306-331 | Under every interleaving of the parallel lookups, loads and puts the experts resolved are those of the store, in order |
| `Staging.StreamingMoE.ExecuteGathered` | ios/Sources/Edge0MLX/StreamingMoE.swift:355-377 | The gathered path gives the routed sum |
| `Staging.StreamingMoE.Exact` | ios/Sources/Edge0MLX/StreamingMoE.swift:177-192 | An exact call gives the routed sum of the teacher's route and leaves staging alone |
| `Staging.ExactMixture` | ios/Sources/Edge0MLX/StreamingMoE.swift:177-192 | The exact path, cache and workers included, gives the feed-forward the whole-model refinement uses |
| `Staging.StreamingMoE.Predicted` | ios/Sources/Edge0MLX/StreamingMoE.swift:196-220 | After any history of stagings, calls, evictions and resets a predicted call returns the routed sum of the route it was given, staged, reused or gathered; a matching pending set means no fallback |
| `Staging.StreamingMoE.Stage` | ios/Sources/Edge0MLX/StreamingMoE.swift:224-262 | Staging gives the complete next set or changes nothing, and never touches what is active |
| `Staging.StreamingMoE.ResetStaging` | ios/Sources/Edge0MLX/StreamingMoE.swift:284-294 | A reset forgets both sets |
| `Prerouting.LingPrerouter.Predict` | ios/Sources/Edge0MLX/LingPrerouter.swift:36-88 | Each owner's head gives the route of the layer above from its last row and the row before; one owner missing means no prediction and no memory; a row remembered from an earlier step wins over this chunk's last but one |
| `Prerouting.RoutedModel.UpdateStagedRoutes` | ios/Sources/Edge0MLX/StreamingEdge0Model8B.swift:252-259 | Without an error the routes in use are the heads' on exactly these features (each owner's input row, its last row of experts, and the row remembered before, else the chunk's last but one, else none) and their sets are pending, in whatever order consumers are staged; there are none if an owner is missing |
| `Prerouting.RoutedModel.DecodeLayers` | ios/Sources/Edge0MLX/StreamingEdge0Model8B.swift:178-184 | A decode step's features: each owner's own input row and the experts it ran, the predicted ones where it had a route, else its teacher's |
| `Prerouting.RoutedModel.Take` | ios/Sources/Edge0MLX/StreamingEdge0Model8B.swift:170-269 | A decode, a prefill or a reset without an error keeps: the routes in use are the heads' on what the owners saw in this very step, with the rows remembered before it, and their sets are pending; where every expert can be loaded there is no error |
| `Prerouting.RoutedModel.TakeAll` | ios/Sources/Edge0MLX/StreamingEdge0Model8B.swift:170-269 | In every error-free run of decodes, prefills and resets the fallback counter of every layer stays zero, and where every expert can be loaded every run is free of errors |
| `Prerouting.RoutedModel.DecodeLayer` | ios/Sources/Edge0MLX/StreamingEdge0Model8B.swift:178-182 | A consumer layer with a predicted route executes exactly that route, and never falls back |
| `Bpe.Bpe8B` | ios/Sources/Edge0Core/Edge0Tokenizer8B.swift:134-164 | The 8B loop returns what repeated passes over all occurrences of the best pair return, and ends |
| `Bpe.MergePass8B` | ios/Sources/Edge0Core/Edge0Tokenizer8B.swift:148-160 | One pass merges the occurrences of the pair from left to right without overlap |
| `Bpe.Bpe35B` | ios/Sources/Edge0MLX/Edge035B/Tokenizer.swift:215-239 | The 35B loop returns the whole piece's id if it has one, else what leftmost-only merging returns, and ends |
| `Bpe.Select35B` | ios/Sources/Edge0MLX/Edge035B/Tokenizer.swift:221-231 | The scan finds the leftmost pair of least rank, or -1 when no adjacent pair has one |
| `BpeAgreement.MergeAllKeeps` | ios/Sources/Edge0Core/Edge0Tokenizer8B.swift:134-164 | The 8B loop keeps the concatenation and stops only when no adjacent pair has a rank |
| `BpeAgreement.FirstIsAll` | ios/Sources/Edge0Core/Edge0Tokenizer8B.swift:134-164 | With unique ranks in which every use of a token ranks above every making of it, merging leftmost-first ends in the same row as merging all occurrences at once |
| `BpeAgreement.LeftmostTexts` | ios/Sources/Edge0MLX/Edge035B/Tokenizer.swift:221-239 | The loop on ids and the loop on texts agree step by step when both rank tables come from the same merges |
| `BpeAgreement.Agreement` | ios/Sources/Edge0MLX/Edge035B/Tokenizer.swift:215-239 | Off the whole-piece shortcut both tokenizers end in the same tokens and the same ids, for every piece |
| `BpeAgreement.AgreementExactly` | ios/Sources/Edge0MLX/Edge035B/Tokenizer.swift:216 | Shortcut included they agree if and only if it is not taken or the merges build the whole piece |
| `BpeAgreement.OneMergeList` | ios/tools/convert_tokenizer.py:62-68 | Two rank tables made from one merge list match, and ranks are unique, repeated merges included |
| `BpeAgreement.OrderMatters` | ios/Sources/Edge0Core/Edge0Tokenizer8B.swift:134-164 | Without the rank order the two loops give different tokens for "abab" |
| `BpeAgreement.ShortcutMatters` | ios/Sources/Edge0MLX/Edge035B/Tokenizer.swift:216 | The shortcut can give a token that no merge makes |
| `ByteLevel.MakeByteMaps` | ios/Sources/Edge0Core/Edge0Tokenizer8B.swift:166-184 | The two byte tables are inverse to each other over all 256 bytes |
| `ByteLevel.UnmappedMapped` | ios/Sources/Edge0MLX/Edge035B/Tokenizer.swift:46-69 | Bytes taken to byte-level text and back are the same bytes |
| `ByteLevel.ByteOfExactly` | ios/Sources/Edge0Core/Edge0Tokenizer8B.swift:166-184 | The characters that stand for a byte are exactly the printable ones and U+0100 to U+0143 |
| `Tokenizer8B.Encode` | ios/Sources/Edge0Core/Edge0Tokenizer8B.swift:71-97 | The loop gives the ids computed from the text: special tokens where they begin, ordinary runs between them, an error when a run cannot be encoded |
| `Tokenizer8B.EncodePlain` | ios/Sources/Edge0Core/Edge0Tokenizer8B.swift:117-132 | Ordinary text gives, match by match of the split and one behind the other, the vocabulary's ids of the merged pieces of the byte-level match; an error exactly at a match one of whose merged pieces the vocabulary lacks |
| `Tokenizer8B.FirstMatch` | ios/Sources/Edge0Core/Edge0Tokenizer8B.swift:83-88 | The special token taken is the first in the list that the rest of the text begins with |
| `Tokenizer8B.Decode` | ios/Sources/Edge0Core/Edge0Tokenizer8B.swift:99-115 | The decode loops concatenate the tokens' bytes in order, skip added tokens when asked to, and fail at the first unknown id |
| `Tokenizer8B.DecodesExactly` | ios/Sources/Edge0Core/Edge0Tokenizer8B.swift:99-104 | Decoding fails exactly at an id no table knows, skipped or not |
| `Tokenizer8B.SkippingDrops` | ios/Sources/Edge0Core/Edge0Tokenizer8B.swift:99-115 | Decoding with added tokens skipped is decoding the ids that are not theirs |
| `Tokenizer8B.PlainDecodes` | ios/Sources/Edge0Core/Edge0Tokenizer8B.swift:117-132 | Ordinary text, split, mapped, merged and looked up, decodes to its own bytes |
| `Tokenizer8B.PlainEncodes` | ios/Sources/Edge0Core/Edge0Tokenizer8B.swift:117-132 | With the 256 byte characters and all merged tokens in the vocabulary every ordinary text can be encoded |
| `Tokenizer8B.EncodesAll` | ios/Sources/Edge0Core/Edge0Tokenizer8B.swift:71-97 | So can every text, special tokens included |
| `Tokenizer8B.RoundTrip` | ios/Sources/Edge0Core/Edge0Tokenizer8B.swift:71-115 | Decoding an encoding gives back the bytes of the text if and only if every special token met in it is readable, in whatever order the added tokens are tried |
| `Tokenizer8B.ReadableExactly` | ios/Sources/Edge0Core/Edge0Tokenizer8B.swift:106-111 | A special text decodes to its own bytes if and only if each character is ASCII or none of U+00A1 to U+00AC, U+00AE to U+0143 |
| `Tokenizer8B.LatinLost` | ios/Sources/Edge0Core/Edge0Tokenizer8B.swift:71-115 | The added token U+00E9: encoded as its id, decoded as one byte, where its UTF-8 has two |
| `Tokenizer35B.SpecialTables` | ios/Sources/Edge0MLX/Edge035B/Tokenizer.swift:132-145 | With distinct ids the two special tables lead back to each other |
| `Tokenizer35B.SplitOnSpecials` | ios/Sources/Edge0MLX/Edge035B/Tokenizer.swift:174-196 | The pieces spell the text in order, and no special token is left inside ordinary text, whichever of several tokens starting at one place is taken |
| `Tokenizer35B.BpeSpellsExactly` | ios/Sources/Edge0MLX/Edge035B/Tokenizer.swift:215-239 | The tokens of a piece spell it if and only if it is one token or every character has an id; a character without one is dropped |
| `Tokenizer35B.EncodeOrdinary` | ios/Sources/Edge0MLX/Edge035B/Tokenizer.swift:198-212 | Ordinary text gives, match by match of the split of its normal form and one behind the other, what the merge loop returns for the byte-level match; where every byte has a token the ids decode to the normal form's bytes |
| `Tokenizer35B.Encode` | ios/Sources/Edge0MLX/Edge035B/Tokenizer.swift:159-172 | There are pieces that spell the text, no special token inside an ordinary one, and the output is one run of ids a piece: a special token's own id alone, and for ordinary text what `EncodeOrdinary` gives; where all 256 byte characters have ids and special ids hide no other bytes, decoding gives back the bytes of any normalised text, whichever special token wins a tie |
| `Tokenizer35B.Decode` | ios/Sources/Edge0MLX/Edge035B/Tokenizer.swift:243-256 | The decode loop appends, id by id, a special text, a token's bytes, or nothing |
| `Tokenizer35B.Earliest` | ios/Sources/Edge0MLX/Edge035B/Tokenizer.swift:180-186 | The token chosen starts no later than any other, whatever order the dictionary gives |
| `PrefixEngine.State.Snapshot` | ios/Sources/Edge0MLX/Edge035B/PrefixCache.swift:183-192 | A snapshot is a new object with the same contents, so later steps cannot disturb it |
| `PrefixEngine.BatchIsRun` | ios/Sources/Edge0MLX/Edge035B/Edge0ChatEngine35B.swift:129-136 | If a batch may be cut in two, then a batch of any size leaves the tables, the offset and the logits of its tokens one at a time |
| `PrefixEngine.OneBatch` | ios/Sources/Edge0MLX/Edge035B/Edge0ChatEngine35B.swift:124-136 | However a prompt was fed, the state and the choice after it are those of one batch of all tokens from nothing |
| `PrefixEngine.SpokenOnce` | ios/Sources/Edge0MLX/Edge035B/Edge0ChatEngine35B.swift:160-227 | The four properties leave one reply only |
| `PrefixEngine.ChatEngine.Begin` | ios/Sources/Edge0MLX/Edge035B/Edge0ChatEngine35B.swift:86-113 | A reply goes on from the conversation, from the cached prefix exactly when it matches and is shorter, or from nothing, and leaves at least one token to feed |
| `PrefixEngine.ChatEngine.BatchEnd` | ios/Sources/Edge0MLX/Edge035B/Edge0ChatEngine35B.swift:124-132 | Every batch makes progress and none runs past the capture point |
| `PrefixEngine.ChatEngine.Prefill` | ios/Sources/Edge0MLX/Edge035B/Edge0ChatEngine35B.swift:124-147 | The live state is the model run from empty over `processed` after every batch; the cached prefix stays or becomes the system prefix, captured at exactly its end |
| `PrefixEngine.ChatEngine.Decode` | ios/Sources/Edge0MLX/Edge035B/Edge0ChatEngine35B.swift:160-227 | Every token said is the greedy choice after everything before it, none is an end token, there are no more than the limit, and fewer only if the next choice is an end token; all of them are in the conversation afterwards |
| `PrefixEngine.ChatEngine.Answer` | ios/Sources/Edge0MLX/Edge035B/Edge0ChatEngine35B.swift:75-241 | The tokens said have those four properties after the conversation and the prompt; in every reachable state, also after cancellation, the live state is the run over `processed` with offset its length, and the cached prefix is a run over its own tokens in an object of its own, the system prefix once a first prompt has gone past it |
| `PrefixEngine.ChatEngine.Reset` | ios/Sources/Edge0MLX/Edge035B/Edge0ChatEngine35B.swift:70-73 | A reset empties the live state and keeps the cached prefix |
| `PrefixEngine.SameReply` | ios/Sources/Edge0MLX/Edge035B/PrefixCache.swift:43-54 | An engine that starts from a cached prefix and one that starts from nothing give the same reply |
| `PrefixEngine.ChatEngine.Restore` | ios/Sources/Edge0MLX/Edge035B/Edge0ChatEngine35B.swift:234-241 | The live state becomes equal to the cached one, which keeps its own contents |
| `PrefixEngine.ChatEngine.Capture` | ios/Sources/Edge0MLX/Edge035B/Edge0ChatEngine35B.swift:141-146 | The new cached prefix is the model run over exactly the system prefix, in an object of its own |
| `PrefixStore.NameMeans` | ios/Sources/Edge0MLX/Edge035B/PrefixCache.swift:99-114 | A stored name leads back to its table and its layer, for every layer number |
| `PrefixStore.Flattened` | ios/Sources/Edge0MLX/Edge035B/PrefixCache.swift:99-114 | The file holds the tokens and exactly the four tables |
| `PrefixStore.Read` | ios/Sources/Edge0MLX/Edge035B/PrefixCache.swift:148-179 | Reading such a file in any order of its arrays gives back the four tables, with the offset the tokens account for |
| `PrefixStore.RoundTrip` | ios/Sources/Edge0MLX/Edge035B/PrefixCache.swift:95-179 | What is written is read back unchanged; a state of no tokens is not |
| `ExpertFiles.PackBlock` | ios/tools/repack_experts.py:171-177 | One expert's nine slices in order |
| `ExpertFiles.PackLayer` | ios/tools/repack_experts.py:160-182 | The layer file is the blocks of all experts in order and its length check passes |
| `ExpertFiles.SlicesCover` | ios/tools/repack_experts.py:99-108 | The slices of all experts, in order, are the whole tensor |
| `ExpertFiles.PartAt` | ios/Sources/Edge0MLX/Edge035B/RepackedExperts.swift:15-36 | Part p of expert e stands at its offset inside block e of the file |
| `ExpertFiles.ReadFully` | ios/Sources/Edge0MLX/Edge035B/RepackedExperts.swift:131-161 | Whatever short counts the reads return, the buffer ends with exactly the wanted bytes, or the call fails; it succeeds if and only if the bytes are in the file and enough reads in a row give something |
| `ExpertLoader.UnionRows` | ios/Sources/Edge0MLX/Edge035B/Edge0Model35B.swift:618-651 | The union lists the distinct ids by first appearance, and the row given to pair i is where the union has ids[i] |
| `ExpertLoader.RowsInOrder` | ios/Sources/Edge0MLX/Edge035B/Edge0Model35B.swift:618-681 | For distinct ids, one token's, the rows are 0, 1, 2, ..., as `sortedIndices` asserts |
| `ExpertLoader.Loader.Reserve` | ios/Sources/Edge0MLX/Edge035B/ExpertLoader.swift:85-110 | The staging buffers only grow, and those there stay |
| `ExpertLoader.Loader.Load` | ios/Sources/Edge0MLX/Edge035B/ExpertLoader.swift:85-151 | From a layer file cut off anywhere a load gives nine tensors whose row i is that part of the i-th chosen expert of the original stacked tensors, or an error: exactly when none or more than the slots are chosen, an id is past the experts, a block is not in the file, or its reads give up |
| `ExpertLoader.WholeFileLoads` | ios/Sources/Edge0MLX/Edge035B/ExpertLoader.swift:85-151 | From a whole layer file and reads without errors every choice the slots allow loads |
| `ExpertLoader.LoadFullLayer` | ios/Sources/Edge0MLX/Edge035B/ExpertLoader.swift:161-218 | From a layer file cut off anywhere the full-layer load gives tensors whose row e is expert e, or an error, exactly when the file is short or its reads give up |
| `ExpertLoader.PairReadsItsExpert` | ios/Sources/Edge0MLX/Edge035B/Edge0Model35B.swift:618-681 | The row of routed pair i holds, in all nine tensors, the parts of expert ids[i], which are row ids[i] of the full-layer stack |
| `ExpertLoader.Route` | ios/Sources/Edge0MLX/Edge035B/Edge0Model35B.swift:618-681 | Union map, load and full-layer load run one after the other: each load succeeds exactly under its own condition, and every routed pair finds the nine parts of its own expert, the same from both |
| `GgufFormat.LEAt` | windows/tools/repack_mlx_to_gguf.py:176-195 | Byte i of a number in the file is its digit of weight 256^i, least significant first |
| `GgufWriter.Writer.Register` | windows/tools/repack_mlx_to_gguf.py:185-188 | A record's offset is the padded total of the sizes registered before it |
| `GgufWriter.Writer.Finalize` | windows/tools/repack_mlx_to_gguf.py:190-200 | The file is the header of everything registered, padded to the returned data start, a multiple of 32 |
| `GgufWriter.Writer.WriteAll` | windows/tools/repack_mlx_to_gguf.py:202-209 | Pass B appends every tensor's bytes, each padded to 32 |
| `GgufWriter.PlacedAt` | windows/tools/repack_mlx_to_gguf.py:185-209 | Tensor i's bytes stand at its registered offset, 32-aligned |
| `GgufCppReader.Skips` | windows/serve/prefetch.cc:60-70 | Skipping a value of any type, nested arrays and strings included, ends exactly where it ends |
| `GgufCppReader.ParseFile` | windows/serve/prefetch.cc:690-709 | The header loop finds what the parse of the bytes gives: table, header end and alignment |
| `GgufCppReader.ParsesHeader` | windows/serve/prefetch.cc:689-709 | Parsing a written header followed by anything gives the table of its records, where it ends, and the last u32 alignment in it |
| `GgufPyReader.ChecksHeader` | windows/tools/convert_mlx_to_gguf.py:51-90 | On a written header followed by anything the check passes if and only if there are enough tensors and the file reaches the largest offset-plus-size it computes |
| `GgufPyReader.CheckGgufHead` | windows/tools/convert_mlx_to_gguf.py:51-90 | The loops of the check find what the walk over the bytes gives, errors included |
| `GgufRoundTrip.WriteFile` | windows/tools/repack_mlx_to_gguf.py:168-212 | Both passes together, for any key-values and tensors |
| `GgufRoundTrip.DataStands` | windows/tools/repack_mlx_to_gguf.py:190-209 | Every tensor's exact bytes stand at the data start plus its own offset |
| `GgufRoundTrip.CppFindsTensor` | windows/serve/prefetch.cc:689-709 | The C++ parser finds every tensor by name with its type, dimensions and offset, computes the writer's data start, and finds the tensor's exact bytes there |
| `GgufRoundTrip.FoundApart` | windows/serve/prefetch.cc:689-709 | The places the C++ parser finds are multiples of 32 behind the header, and of two tensors the earlier ends before the later begins, inside the file |
| `GgufRoundTrip.RegisteredAlignment` | windows/tools/repack_mlx_to_gguf.py:292 | The alignment the repack registers last is the one the parser uses, whatever came before |
| `GgufRoundTrip.CppDataStart` | windows/serve/prefetch.cc:698-709 | With alignment a in the header the parser computes the writer's data start if and only if a is not zero, divides that start and has no smaller multiple from the header's end on |
| `GgufRoundTrip.FinishedPasses` | windows/tools/convert_mlx_to_gguf.py:51-90 | The check passes every finished file whose registered sizes are those of its types |
| `GgufRoundTrip.WantedIsData` | windows/tools/convert_mlx_to_gguf.py:72-86 | The length the check asks for is never more than the tensor data alone, the header left out |
| `GgufRoundTrip.CutPasses` | windows/tools/convert_mlx_to_gguf.py:51-90 | Cut to any length at all, a finished file passes if and only if the version is left, the count as it reads is enough, every string as it reads decodes, and the records as they read ask for no more than what is left; the counts returned are those read |
| `GgufRoundTrip.DataCut` | windows/tools/convert_mlx_to_gguf.py:72-89 | Cut anywhere behind its header, it passes if and only if what is left has the length asked for |
| `GgufCut.TableCut` | windows/tools/convert_mlx_to_gguf.py:72-89 | Cut after i whole records and j bytes of the next, any header passes if and only if the count is enough, what is left of that name decodes, and neither the whole records nor that one as it reads reach past the cut |
| `GgufCut.KvCut` | windows/tools/convert_mlx_to_gguf.py:61-72 | Cut inside its key-values, without table and data, it passes if and only if the count is enough and every string as it reads decodes |
| `GgufCut.PreambleAlone` | windows/tools/convert_mlx_to_gguf.py:54-60 | The 24 bytes of the preamble alone pass, whatever number of tensors they promise |
| `GgufRoundTrip.ShorterPasses` | windows/tools/convert_mlx_to_gguf.py:72-89 | Where a reach goes past the header's end, the file cut there is refused and cut to 24 bytes accepted |
| `GgufRoundTrip.LessPasses` | windows/tools/convert_mlx_to_gguf.py:72-89 | One f32 tensor of a thousand elements: refused with its 57 bytes of header, accepted with 24 |
| `GgufRoundTrip.TailUnseen` | windows/tools/convert_mlx_to_gguf.py:72-89 | So as many bytes as the data start can be missing from the end of any finished file unnoticed, as long as what is left holds the header and is as long as the data |
| `GgufRoundTrip.EmptyFilePasses` | windows/tools/convert_mlx_to_gguf.py:72-89 | A file with no tensor data at all passes if and only if no reach goes past the data start: the check leaves the header's length and the element size out |
| `GgufRoundTrip.TruncationUnseen` | windows/tools/convert_mlx_to_gguf.py:79-89 | One such file: a tensor of eight floats whose 32 bytes are all missing passes |
| `Q41.PackQ41Rows` | windows/tools/repack_mlx_to_gguf.py:108-143 | Every row is packed with its own scales, and the exempt blocks are the two of each bad group and no other |
| `Q41.RowSurvives` | windows/tools/repack_mlx_to_gguf.py:103-160 | From the 32-bit words of a row through unpacking, block packing and rereading every word is what it was, in its place |
| `Q41.RowCodes` | windows/tools/repack_mlx_to_gguf.py:139-160 | The packed blocks of a row hold its 4-bit codes in order |
| `Q41.ExemptExactly` | windows/tools/repack_mlx_to_gguf.py:108-143 | Both dequantisers differ somewhere in a group if and only if it is exempt and is not one of a single code at which the roundings cancel |
| `Q41.AgreeOutsideExempt` | windows/tools/repack_mlx_to_gguf.py:108-160 | For every matrix both dequantisers agree on every element outside the exempt blocks |
| `Adapter.SsmBaPerm` | windows/tools/repack_r3.py:83-88 | The loop gives the interleave, group by group |
| `Adapter.InterleaveExactly` | windows/tools/repack_r3.py:83-88 | The interleave uses each of the 2 n_v source rows exactly once if and only if n_v = 2 n_k |
| `Adapter.LoadBa` | windows/tools/repack_r3.py:91-101 | Row i of codes, scales and biases is the source row the interleave names |
| `Adapter.MergeB` | windows/tools/lora_mlx_to_gguf.py:138-142 | Every row of the merged B is its source row doubled in its own half and zero in the other |
| `Adapter.MergeCommutes` | windows/tools/lora_mlx_to_gguf.py:130-143 | Row i of the interleaved base with the merged adapter at scale alpha/2r is, on every input, the source row that belongs there with its own adapter at alpha/r |

## Left out

Hypotheses of the models:

- Memory is sequentially consistent for the pool; a successful `ReadFile` delivers all bytes asked for, the code passing no byte count out. Pooled tensors lie inside the file and an expert is shorter than 4 GiB; the 32-bit halves of the prefill's offset are taken as the 64-bit offset.
- Arithmetic is over exact reals; bf16, f16 and f32 rounding, `quantizedMM`, RMSNorm, RoPE values and softmax weights are uninterpreted functions of one row. Where rounding is the point, in the Q4_1 repack, it is a parameter.
- The causal mask of the library is taken as aligned to the lower right, and `argSort` as any sorting permutation.
- Merge ranks are unique and ordered for the agreement of the tokenizers; split patterns partition their input; UTF-8 and, for the 35B tokenizer, normalisation are parameters, strings being sequences of code units compared literally.
- Scales and biases of the Q4_1 repack are numbers inside the finite f16 range; the not-a-number exclusions and the counters of the gate are not part of this model.
- The empty string decodes, as it does in UTF-8, for what the GGUF check makes of cut files.
- Runs end at a thrown error: what the engines do after one is not part of this model, except that a cancelled prompt leaves them empty.

Weaker or narrower than the code:

- Streaming8B.StreamingModel.Decode: no prerouter, since with one the layers execute predicted routes instead (`Prerouting.RoutedModel`).
- Streaming8B.FeedPrompt: no prerouter either; the full expert stack is a table of the model rather than a field of each layer.
- Staging.StreamingMoE.LoadFromStore: the parallel reads of an immutable store are one step, all or nothing; the interleaved workers are modelled in ResolveExperts, where they share the cache.
- Prerouting.RoutedModel.Take: the rows that reach each layer, the prediction heads and, in a prefill, the owners' features are arbitrary inputs.
- PrefixEngine.ChatEngine.Prefill: the 35B forward pass of a batch is a parameter, with the real gate; that a batch may be cut in two is a hypothesis every claim about the engine carries. Pregate heads, routing guesses and the prefetch tables of the state are not part of this model, so nothing is claimed about how old 35B predictions are.
- PrefixEngine.ChatEngine.Answer: templates, text cleaning and the thinking block are left out; a turn is its token ids, and the persisted file is a parameter of the constructor.
- ExpertLoader.Loader.ReadAll: the concurrent reads go one after the other; they fill distinct buffers.
- ExpertLoader.Loader.Load: the layer file is what the packer wrote, possibly cut off; a file altered in the middle is not detected by the code either.
- ExpertFiles.PackLayer: part sizes are the 35B constants rather than those of the tensor headers; free-space checks and the rename on success are left out.
- GgufCppReader.ParseFile: a read past the end of the file ends the parse here, where the code goes on with what the variables held.
- GgufPyReader.CheckGgufHead: text decoding is a parameter that says which strings decode.
- Tokenizer8B.RoundTrip: about added tokens whose ids lead to their own texts, and about decoding without the option to skip them, which `Tokenizer8B.SkippingDrops` brings back to it.
- Q41.PackQ41Rows: the assertions on array shapes are preconditions.

Not modelled:

- Tracing, hit and miss counters of the pool, profiling, thermal and memory reports: no effect on results.
- Windows API calls, mmap and madvise, `F_RDADVISE`, Core ML and Metal launch beyond the bytes they move.
- Routing choice and sampling: the chosen experts, weights and tokens are inputs.
- The 8B decode loop after the prompt, with its sampling history and stop rule.
- Downloads, file checks at start-up, the user interfaces, the command line and the process control of the desktop application.
