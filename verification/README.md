# A verified model of the nano-vllm control plane

This project models the part of the engine that decides what runs, which KV pages it uses and what is
shared, fetched or published, and proves properties of it that hold in every reachable state and over
every run. It covers six interlocking pieces.

* **The prefix index** (`PrefixView`, `RadixTree`, `RadixCache`): the path-compressed trie over page-sized
  token blocks, as a mutable object with parent links, edge splitting, recompression and an inverse index.
  Every operation is proved to refine an operation on its content, a map from token prefixes to pages.
* **The paged KV allocator** (`Pages`, `Pool`, `PoolSteps`, `PoolWrites`, `Compression`, `Allocation`,
  `Sequences`, `Relevance`, `Blocks`): reference-counted, shared pages with eviction, suffix reclaim, resume, remote
  reservation and lossy compression. Each KV slot holds, in the model, the token prefix it was computed
  for, so that "reusing a cached page equals recomputing it" is a statement about states.
* **The scheduler and the engine loop** (`KvReclaim`, `KvAdmission`, `Queues`, `Progress`, `Finishing`,
  `Termination`, `Scheduler`, `Engine`, `ModelRunner`): chunked prefill, decoding, preemption, forced
  reclaim, restores and cancellation, with one-step progress, termination of every run and the slot
  arithmetic of the model runner.
* **The asynchronous transfer coordinator** (`TransferCoordinator`): one object key under every
  interleaving of gets, puts and evictions, with failures and superseded operations.
* **The remote catalog and write-back** (`CatalogView`, `Catalog`, `Publication`, `Writeback`): what the
  catalog's snapshot preserves, and that nothing is ever published that was not written.
* **The event queue and the scheduling policies** (`EventQueue`, `Qos`): no lost wake-up, and bounded
  overtaking.

Objects that the program updates in place are classes whose methods are proved against functions on
immutable values (`Trie`, `Pool`, `Sched`, `Machine`, `Service`, `Queue`); invariants and theorems are
lemmas about those values. Concurrent protocols are state machines whose steps interleave freely.

Five places where a stated or expected property does not hold are kept as the code has them, each with
an input for which it fails and the exact condition under which it holds:

* `RadixPrefixCache.validate` asserts that no node has exactly one child
  (`nanovllm/engine/radix_cache.py:221`). `RadixCache.RadixPrefixCache.Insert` breaks this precisely when
  the keys extend an existing leaf; on any tree, `Insert`, `Compress` and `RemoveBlock` state exactly
  which nodes come to have one child or stop having one. `RadixCache.ExtendLeaf` is the smallest failing
  case, and `RadixCache.RemoveElsewhere` shows that removing an unrelated page does not repair it.
* A `get` may return nothing although the object exists
  (`nanovllm/engine/transfer_coordinator.py:121`), as the run in
  `TransferCoordinator.SupersededFetchMisses` shows. `TransferCoordinator.GetReturnsNothingExactly` says
  when: exactly if its task was superseded before it ended, or was a fetch that ended while the store
  lacked the object. Every payload returned is linearizable.
* A catalog may hold what cannot be saved (`nanovllm/engine/remote_restore.py:186-219`): `TakeSnapshot`
  fails exactly if the content has no common page size or a token beyond 32 bits, and
  `Catalog.MixedPageSizes` registers such a content.
* `reclaim_suffix` promises a contiguous prefix and accepts a compressed request
  (`nanovllm/engine/block_manager.py:214-233`), whose pages need not be one.
  `PoolSteps.ReclaimedInv` and `Blocks.BlockManager.ReclaimSuffix` say that the pool stays consistent
  exactly if no page before the cut was dropped and a compressed request keeps some page, and
  `PoolSteps.CutMisplacesPages` gives consistent pools for which each of the two fails. The scheduler
  never reclaims from a compressed request. Likewise `Compression.CompressExactly`: a compression must
  keep the last page, which `compress_query_aware` may drop only with the empty recent window that the
  configuration excludes.
* A confirmed save of the catalog survives a restart (`Publication.RestartRecovers`) only if no save of
  an earlier process takes effect after it. `Publication.LateSaveIsRead` says what is read then, and
  `Publication.LateSaveOvertakes` is a run in which it is an older catalog. That every page it refers
  to was written holds throughout.

Requests are configured as the engine configures them: pages of at least two tokens, at least one
sequence and one token per batch, and a prompt plus completion that fits the pool
(`nanovllm/config.py:11-14`, `nanovllm/serve/engine_worker.py:253-263`). The scheduling policy is an
arbitrary chooser that selects a member and asks for prefill when nothing runs and something waits; the
restore planner is arbitrary within the bounds that `PlanRestore` proves of it.

## Model

| member | source | states |
|---|---|---|
| RadixCache.RadixPrefixCache.constructor | nanovllm/engine/radix_cache.py:20-27 | a new index is well formed and indexes nothing |
| RadixCache.CommonPrefixLength | nanovllm/engine/radix_cache.py:29-34 | the common prefix, and that the next keys differ unless one side ends |
| RadixCache.RadixPrefixCache.Match | nanovllm/engine/radix_cache.py:44-67 | the pages returned are those of the longest indexed prefix; only recency changes |
| RadixCache.RadixPrefixCache.Insert | nanovllm/engine/radix_cache.py:69-132 | content becomes exactly the old content plus the missing prefixes, old pages staying canonical; the two errors leave everything alone; on any tree, exactly the leaf that the keys extend, if there is one, comes to have a single child (where `validate` fails), and otherwise exactly the node that they branch off from no longer has; so a tree without such nodes stays without if and only if the keys extend no leaf |
| RadixCache.ExtendLeaf | nanovllm/engine/radix_cache.py:69-132 | a case that fails: a new index given [A] and then [A, B] has a node with one child |
| RadixCache.RemoveElsewhere | nanovllm/engine/radix_cache.py:140-179 | and removing the page of an unrelated [C] again does not repair it, although exactly [A] and [A, B] are left |
| RadixCache.RadixPrefixCache.InsertPath | nanovllm/engine/radix_cache.py:78-132 | the walk that splits an edge or hangs a leaf keeps links, child keys and `block_locations` consistent and refines the insertion on content |
| RadixCache.RadixPrefixCache.SplitEdge | nanovllm/engine/radix_cache.py:94-118 | splitting an edge keeps the tree consistent and the content unchanged |
| RadixCache.RadixPrefixCache.DropSubtree | nanovllm/engine/radix_cache.py:134-138 | exactly the pages of the subtree leave the inverse index |
| RadixCache.RadixPrefixCache.Compress | nanovllm/engine/radix_cache.py:140-156 | recompression keeps the tree consistent and the content unchanged; on any tree, exactly the nodes along the walk stop having one child, and only nodes merged into one of them are dropped |
| RadixCache.RadixPrefixCache.RemoveBlock | nanovllm/engine/radix_cache.py:158-179 | true iff the page was indexed; then exactly the prefixes extending its prefix disappear; on any tree, no node left along that prefix has one child, every other node has one exactly if it had, and only nodes at or below the prefix or merged away are dropped |
| RadixCache.RadixPrefixCache.LruLeafBlock | nanovllm/engine/radix_cache.py:181-198 | the last eligible page of a leaf that was used least recently, smallest id first; none iff no leaf has an eligible page |
| RadixTree.Trie.ViewWellFormed | nanovllm/engine/radix_cache.py:213-231 | what the flat tree invariant means: the content is closed under prefixes, no page occurs twice, and the inverse index holds exactly the indexed pages |
| RadixTree.Trie.SplitsEdgeInv | nanovllm/engine/radix_cache.py:94-118 | the tree after a split is consistent again |
| RadixTree.Trie.MergesChildInv | nanovllm/engine/radix_cache.py:140-156 | the tree after absorbing an only child is consistent again |
| RadixTree.Trie.PrunesInv | nanovllm/engine/radix_cache.py:134-179 | the tree after dropping a subtree and truncating an edge is consistent, and represents exactly the remaining prefixes |
| RadixTree.Trie.LeafTail | nanovllm/engine/radix_cache.py:158-198 | invalidating the last eligible page of a leaf invalidates exactly it and the pages behind it in the leaf, none of which is eligible |
| RadixTree.Trie.LeafPageAlone | nanovllm/engine/radix_cache.py:181-198 | so no other eligible page goes with it |
| PrefixView.MatchIsLongest | nanovllm/engine/radix_cache.py:44-67 | a match is unique, and the indexed prefixes of the keys are exactly those up to it |
| PrefixView.IndexedMatches | nanovllm/engine/radix_cache.py:44-67 | keys all of whose prefixes are indexed are matched to their end |
| PrefixView.InsertKeepsWellFormed | nanovllm/engine/radix_cache.py:69-132 | insertion keeps prefix closure and injectivity, keeps old pages, and makes all the keys matchable |
| PrefixView.MatchAfterRemove | nanovllm/engine/radix_cache.py:158-179 | how every later match changes when a prefix is invalidated |
| Pool.Pool.MatchedPagesHoldTheirKv | nanovllm/engine/block_manager.py:94-114 | prefix-cache transparency: in every consistent state a matched page holds, in every slot, the KV of exactly the tokens it was matched for |
| Pool.Pool.Conservation | nanovllm/engine/block_manager.py:30-51 | the free list and the used set partition the pages, and used pages are those in some table |
| PoolSteps.GrowInv | nanovllm/engine/block_manager.py:60-87 | giving a free page to a table, with whatever the index forgets for it, keeps ownership, content and isolation |
| PoolSteps.AttachInv | nanovllm/engine/block_manager.py:136-156 | sharing an indexed page keeps them, whether the page was in use or free |
| PoolSteps.DropInv | nanovllm/engine/block_manager.py:201-233 | giving back pages keeps them: a page becomes free exactly with its last reference |
| PoolSteps.ReleaseInv | nanovllm/engine/block_manager.py:201-233 | giving back a suffix of a table keeps them |
| PoolSteps.ReclaimedInv | nanovllm/engine/block_manager.py:214-233 | for any request, cutting its table leaves a consistent pool if and only if no page before the cut was dropped and, if the request was compressed, some page is kept: its mark of compression stays, and must not outlive its pages |
| PoolSteps.CutMisplacesPages | nanovllm/engine/block_manager.py:214-233 | consistent pools that do not stay so: a compressed request with a gap cut behind the gap, whose counters then misplace a page, and the same request cut to nothing, still marked |
| PoolWrites.RunInv | nanovllm/engine/model_runner.py:194-250 | writing the scheduled positions of a request keeps the pool consistent, and every such slot then holds the KV of its position |
| PoolWrites.RunOthers | nanovllm/engine/model_runner.py:203-226 | and what any other request has computed is not touched |
| PoolWrites.PublishInv | nanovllm/engine/block_manager.py:402-421 | indexing computed pages keeps the pool consistent, although other requests may have indexed the same prefix first |
| PoolWrites.CompleteInv | nanovllm/engine/block_manager.py:402-421 | finishing a run (publishing filled pages, moving the counters) keeps the pool consistent |
| PoolWrites.CompletedMatches | nanovllm/engine/block_manager.py:173-195 | and everything up to the last filled page is then indexed |
| Allocation.AttachToInv | nanovllm/engine/block_manager.py:136-156 | attaching all cached pages, one by one, keeps the pool consistent and costs exactly the free pages among them |
| Allocation.OwnershipDetermined | nanovllm/engine/block_manager.py:60-282 | reference counts, used set and free pages are determined by the tables alone |
| Allocation.AbortedReservation | nanovllm/engine/block_manager.py:158-199 | reserving and aborting gives back every page to its prior owners, changes no request, and leaves the same prefix cached |
| Allocation.PlanSpends | nanovllm/engine/block_manager.py:131-134 | following a plan takes exactly the planned number of free pages: all but those in use already |
| Allocation.ContinuesUnique | nanovllm/engine/block_manager.py:235-282 | what a kept prefix can be continued with is unique, so asking and resuming agree |
| Compression.CompressInv | nanovllm/engine/block_manager.py:284-323 | dropping middle pages keeps the pool consistent |
| Compression.CompressExactly | nanovllm/engine/block_manager.py:284-323 | for any positions, the pool stays consistent if and only if the last page is kept |
| Compression.SqueezedTable | nanovllm/engine/block_manager.py:284-323 | the table left has strictly increasing logical indices, keeps its last page, and its physical length stays congruent to the logical length modulo the page size |
| Compression.SqueezedSizes | nanovllm/engine/block_manager.py:284-323 | the exact sizes after a compression: pages, physical length and span |
| Compression.KeepAtIncreasing | nanovllm/engine/block_manager.py:284-323 | selecting positions keeps logical indices strictly increasing, and the last one if it is selected |
| Compression.KeepsBudget | nanovllm/engine/block_manager.py:325-392 | sink, recent and chosen pages together are exactly the page budget |
| Compression.TopScored | nanovllm/engine/block_manager.py:371-392 | the given number of positions, none of which ranks below one left out; later pages win ties |
| Pages.PagesForAtMost | nanovllm/engine/sequence.py:98-100 | `num_blocks` is the least number of pages that hold all tokens |
| Sequences.Sequence.AppendToken | nanovllm/engine/sequence.py:123-128 | one token is appended; nothing else of the scheduling state changes |
| Sequences.Sequence.Cancel | nanovllm/engine/sequence.py:162-166 | the request becomes cancelled unless it is terminal already |
| Sequences.Sequence.BeginRestore | nanovllm/engine/sequence.py:168-175 | only a waiting request starts a restore; it is then marked as having tried |
| Sequences.Sequence.EndRestore | nanovllm/engine/sequence.py:177-198 | only a restoring request leaves the restore, and waits |
| Blocks.BlockManager.constructor | nanovllm/engine/block_manager.py:30-51 | all pages are free and nothing is indexed |
| Blocks.BlockManager.ChooseBlock | nanovllm/engine/block_manager.py:60-76 | an unindexed free page if there is one; else the last free page of the least recently used leaf; else the oldest free page |
| Blocks.BlockManager.AllocateBlock | nanovllm/engine/block_manager.py:60-87 | eviction is minimal: nothing is forgotten while a free page is unindexed, and taking a leaf's last free page forgets exactly it and the pages behind it in the leaf, all in use |
| Blocks.BlockManager.LookupCachedBlocks | nanovllm/engine/block_manager.py:94-114 | the longest indexed prefix of the request's full pages but the last, with nothing changed |
| Blocks.BlockManager.CanAllocate | nanovllm/engine/block_manager.py:116-126 | -1 only if the free pages do not suffice for the cached prefix found; otherwise the plan recorded is affordable |
| Blocks.BlockManager.PlannedAllocationPages | nanovllm/engine/block_manager.py:131-134 | what the plan takes from the free pages |
| Blocks.BlockManager.Allocate | nanovllm/engine/block_manager.py:136-156 | the whole table, cached pages first and fresh pages after them, with counters and references; it fails, without effect, iff the index does not have that many pages |
| Blocks.BlockManager.ReserveRestore | nanovllm/engine/block_manager.py:158-171 | pages are reserved iff local < remote < number of pages and the local prefix is as planned; the reserved pages are those after the local prefix; otherwise nothing changes |
| Blocks.BlockManager.CommitRestoredPrefix | nanovllm/engine/block_manager.py:173-195 | which length and table errors are raised exactly when, with nothing changed; otherwise the whole restored prefix is indexed, in one step |
| Blocks.BlockManager.AbortRestore | nanovllm/engine/block_manager.py:197-199 | every page is given back |
| Blocks.BlockManager.Deallocate | nanovllm/engine/block_manager.py:201-212 | every page is given back, last page first |
| Blocks.BlockManager.ReclaimSuffix | nanovllm/engine/block_manager.py:214-233 | refused iff the table or the computed tokens are shorter than the part to keep; otherwise the suffix is given back and the freed pages are counted; the pool stays consistent iff what is kept is contiguous and, of a compressed request, not empty |
| Blocks.BlockManager.CanResume | nanovllm/engine/block_manager.py:235-254 | too many pages iff the table is longer than needed; not resumable only if the free pages do not suffice for what the index offers; otherwise the recorded plan is affordable |
| Blocks.BlockManager.Resume | nanovllm/engine/block_manager.py:256-282 | the kept prefix is continued with the unique indexed suffix and fresh pages; a recorded plan never fails |
| Blocks.BlockManager.CompressKeepPositions | nanovllm/engine/block_manager.py:284-323 | exactly the pages at the other positions are dropped, with the pages freed and tokens dropped counted; consistent afterwards iff nothing is dropped or the last page is kept |
| Blocks.BlockManager.CompressSinkRecent | nanovllm/engine/block_manager.py:325-343 | nothing happens up to the budget; beyond it exactly sink + recent pages are left |
| Blocks.BlockManager.CompressQueryAware | nanovllm/engine/block_manager.py:345-392 | nothing happens up to the budget; beyond it exactly sink + recent + important pages are left, the important ones scoring best: for each distinct token shared with the last prompt tokens, one over the number of candidate pages that hold it; later pages win ties; consistent afterwards unless the recent window is empty and the last page is not among the best |
| Relevance.RatePages | nanovllm/engine/block_manager.py:361-382 | the loops over document frequencies compute exactly that score for every candidate |
| Relevance.MoreMatchesScoreHigher | nanovllm/engine/block_manager.py:377-382 | a page that shares every query token another one shares scores at least as high, whatever the order of addition |
| Relevance.NoMatchKeepsRecent | nanovllm/engine/block_manager.py:384-391 | without any match the important pages are the most recent candidates: the same pages stay as under a sink and recent window of that size |
| Blocks.BlockManager.CanAppend | nanovllm/engine/block_manager.py:394-395 | a free page is there if the next token needs one |
| Blocks.BlockManager.MayAppend | nanovllm/engine/block_manager.py:397-400 | a fresh page is appended exactly when the token count is one more than a multiple of the page size |
| Blocks.BlockManager.HashBlocks | nanovllm/engine/block_manager.py:402-421 | the pages that the run filled are published, and none of a compressed request |
| KvReclaim.ReclaimPolicy.PlanIsSafe | nanovllm/engine/kv_reclaim.py:26-102 | under either policy only computed pages are kept, the requested number is reclaimed as far as possible, and the invalidated tokens are exactly those beyond |
| KvReclaim.ReclaimPolicy.UrgentKeepsMore | nanovllm/engine/kv_reclaim.py:75-102 | the smaller the budget, the more pages are kept; best effort keeps the fewest |
| KvAdmission.GrowthIsStepByStep | nanovllm/engine/kv_admission.py:4-5 | the closed form equals the pages that decoding step by step through `may_append` takes, for any sampled tokens and also after compression |
| KvAdmission.RunningGrowth | nanovllm/engine/kv_admission.py:4-5 | and that applies to every running request outside a batch, in every state of the scheduler |
| KvAdmission.PriorityReservePages | nanovllm/engine/kv_admission.py:8-23 | the candidate's own growth plus that of every running request of at least its priority |
| Queues.NobodyOwns | nanovllm/engine/scheduler.py:356-389 | with nobody running or restoring and no waiting request owning pages, every page is free |
| Queues.DecodeRoom | nanovllm/engine/block_manager.py:394-400 | a running request needs a fresh page exactly when its physical last page is full, also after any number of compressions |
| Queues.AbortedStep | nanovllm/engine/scheduler.py:245-250 | a submission that fails leaves ownership and the cached prefix as they were, and the request admittable with the same plan |
| Queues.CompressedInv | nanovllm/engine/scheduler.py:322-354 | compressing a running request keeps the scheduler's invariant |
| Queues.PreemptInv | nanovllm/engine/scheduler.py:541-580 | a preempted request fits the waiting queue again, and the invariant holds |
| Finishing.RunBatchInv | nanovllm/engine/model_runner.py:194-286 | after the model ran a batch, every request of it has its scheduled positions computed |
| Finishing.ImportInv | nanovllm/engine/llm_engine.py:257-272 | importing any number of the fetched pages touches only KV: the scheduler's invariant holds, and the positions imported hold their KV |
| Finishing.RestoredInv | nanovllm/engine/scheduler.py:273-285 | a completed restore leaves a request that can wait, and lowers the restores left |
| Finishing.ReservedAreExclusive | nanovllm/engine/scheduler.py:220-264 | until a restore ends, each page reserved for it belongs to its request alone and cannot be matched |
| Finishing.AbandonedInv | nanovllm/engine/scheduler.py:287-293 | so does a failed one, with all its pages given back |
| Finishing.CancelInv | nanovllm/engine/scheduler.py:194-218 | a cancelled request is in no queue and owns nothing, and the invariant holds |
| Finishing.LiveIsPlaced | nanovllm/engine/scheduler.py:180-181 | a request is unfinished iff it is waiting, running or restoring |
| Scheduling.Scheduler.constructor | nanovllm/engine/scheduler.py:32-120 | the initial state is consistent under the documented configuration |
| Scheduling.Scheduler.Add | nanovllm/engine/scheduler.py:188-192 | a new request joins the end of the waiting queue |
| Scheduling.Scheduler.Cancel | nanovllm/engine/scheduler.py:194-218 | succeeds iff the request is unfinished; then it leaves its queue and gives back every page, and nothing else changes |
| Scheduling.Scheduler.StartRemoteRestore | nanovllm/engine/scheduler.py:220-264 | a restore starts and moves the request to the pending ones, or nothing of the plan changes and the request can still be admitted with the same local pages |
| Scheduling.Scheduler.CompleteRemoteRestore | nanovllm/engine/scheduler.py:273-285 | the request waits at the end of the queue, and its whole restored prefix is indexed |
| Scheduling.Scheduler.FailRemoteRestore | nanovllm/engine/scheduler.py:287-293 | the request waits at the front of the queue and owns nothing |
| Scheduling.Scheduler.ApplyReclaim | nanovllm/engine/scheduler.py:299-320 | the decided suffix is given back; the reclaim never fails for a planned decision |
| Scheduling.Scheduler.MaybeCompress | nanovllm/engine/scheduler.py:322-354 | compression fires exactly when configured, free pages are low and the table exceeds the budget; it then leaves exactly the configured budget |
| Scheduling.Scheduler.EnsureResumeCapacity | nanovllm/engine/scheduler.py:356-389 | terminates; true means resuming will succeed; false only while somebody runs or restores; the request gives back its own pages only when nobody else has any |
| Scheduling.Scheduler.ConsiderFresh | nanovllm/engine/scheduler.py:443-481 | who owns nothing is admitted, leaves for a restore, is deferred only while somebody runs, or makes way for those with pages |
| Scheduling.Scheduler.Admit | nanovllm/engine/scheduler.py:437-497 | at most the remaining tokens are scheduled, a part of a prompt only for the first request of a batch, and the request runs exactly when all its tokens are scheduled |
| Scheduling.Scheduler.PrefillPhase | nanovllm/engine/scheduler.py:406-502 | terminates; the batch keeps to both limits; with nobody running and no restore pending somebody is admitted if anybody waits |
| Scheduling.Scheduler.RoomToAppend | nanovllm/engine/scheduler.py:510-528 | terminates; either the next token has room, or everybody running was sent back to wait |
| Scheduling.Scheduler.DecodePhase | nanovllm/engine/scheduler.py:504-539 | terminates; somebody is scheduled, or everybody waits and a retry is due; scheduled requests are at the front of the running queue in the order of the batch, each for one token |
| Scheduling.Scheduler.Schedule | nanovllm/engine/scheduler.py:391-539 | one-step progress: with anything queued it returns a non-empty batch within both limits or waits for a restore; a prefill batch holds no compressed request and a decode batch one token each; the four errors are unreachable |
| Scheduling.Scheduler.Preempt | nanovllm/engine/scheduler.py:541-580 | exactly the pages the reclaim policy decides (none for a compressed request) are kept, and the request waits at the front |
| Scheduling.Scheduler.Settle | nanovllm/engine/scheduler.py:584-602 | what the end of a step makes of one request: a part moves the counters, a completed run appends the token, the last token gives back everything |
| Scheduling.Scheduler.Postprocess | nanovllm/engine/scheduler.py:582-602 | request k of the batch is settled exactly once, with token k, and nobody else changes |
| Scheduling.Scheduler.WhoIsQueued | nanovllm/engine/scheduler.py:180-181 | somebody is unfinished iff the scheduler is not finished |
| Termination.TokenStepBelow | nanovllm/engine/scheduler.py:391-602 | a step that completes a run lowers the lexicographic measure, whatever was preempted or reclaimed for it |
| Termination.PartStepBelow | nanovllm/engine/scheduler.py:391-602 | so does a step that computes only a part of a prompt |
| Termination.GentleTotals | nanovllm/engine/scheduler.py:356-580 | preemption, forced reclaim and compression raise neither the restores left nor the tokens left |
| Engine.LLMEngine.EndRestore | nanovllm/engine/llm_engine.py:257-275 | a restore whose transfer or import fails, after any number of pages, puts its request at the front of the waiting queue with nothing owned; otherwise the request joins the end with its whole prefix indexed; either way the restores left are fewer |
| Engine.LLMEngine.Step | nanovllm/engine/llm_engine.py:297-329 | a step always gets a batch, waiting for restores if it must, and lowers the measure; a restore waited for is taken to end, well or badly |
| Engine.LLMEngine.Generate | nanovllm/engine/llm_engine.py:357-370 | every run terminates with every request finished, whatever the policy chooses, the model samples, or becomes of restores, provided that a transfer the engine waits for ends sooner or later |
| ModelRunner.PreparePrefill | nanovllm/engine/model_runner.py:203-226 | the slot list is the slot of every scheduled position, in order, over the whole batch |
| ModelRunner.MapSequence | nanovllm/engine/model_runner.py:214-226 | page by page it lists exactly `block_table[p/bs]*bs + p%bs` for the scheduled positions |
| ModelRunner.PrepareDecode | nanovllm/engine/model_runner.py:242-250 | each slot is that of the next physical position, and each context length covers everything held |
| ModelRunner.DecodeSlot | nanovllm/engine/model_runner.py:242-246 | the slot computed from logical lengths is the slot of the next physical position, however often the request was compressed |
| ModelRunner.PrefillIsolated | nanovllm/engine/model_runner.py:203-226 | write isolation, prefill: the slots listed are pairwise distinct, are exactly what the run writes, and lie in pages that one request of the batch owns alone and that are not indexed |
| ModelRunner.DecodeIsolated | nanovllm/engine/model_runner.py:242-250 | write isolation, decode: the same of the slots computed from logical lengths |
| Engine.LLMEngine.PrepareSlots | nanovllm/engine/model_runner.py:194-252 | so the slot list of every batch that `schedule` returns is isolated in this sense |
| ModelRunner.BatchRuns | nanovllm/engine/model_runner.py:194-250 | a request of a batch that is not compressed, or runs for one token, meets what slot preparation needs |
| ModelRunner.WritesOwnPages | nanovllm/engine/model_runner.py:203-246 | every physical position of a batch lies in a page that no other request holds and that is not indexed |
| ModelRunner.SameSlotSameWrite | nanovllm/engine/model_runner.py:203-246 | no two physical positions of a batch share a slot |
| ModelRunner.OnlySlotWritten | nanovllm/engine/model_runner.py:203-246 | a write changes its own slot and no other |
| TransferCoordinator.StepInv | nanovllm/engine/transfer_coordinator.py:62-269 | every step of every task and call keeps the protocol invariant |
| TransferCoordinator.EveryRun | nanovllm/engine/transfer_coordinator.py:168-269 | the invariant holds throughout every interleaving, with any failures |
| TransferCoordinator.EntryTellsStore | nanovllm/engine/transfer_coordinator.py:72-166 | a resident payload is the store's value; an absent entry with a history means the store lacks the key; a transitional entry has its unfinished task |
| TransferCoordinator.OneCallAtATime | nanovllm/engine/transfer_coordinator.py:67-70 | at most one backend call is under way, and calls run in generation order |
| TransferCoordinator.SomeTaskCanStep | nanovllm/engine/transfer_coordinator.py:67-70 | no deadlock: while a task is unfinished some task can step |
| TransferCoordinator.WaiterCanLeave | nanovllm/engine/transfer_coordinator.py:168-220 | a `get` is never stuck once tasks have ended, and never finds a transitional entry without its task |
| TransferCoordinator.SupersededIsSilent | nanovllm/engine/transfer_coordinator.py:72-97 | a superseded task changes nothing of the entry and returns nothing or raises |
| TransferCoordinator.GetsAreLinearizable | nanovllm/engine/transfer_coordinator.py:168-220 | every payload a `get` returns was in the store at some moment of the call |
| TransferCoordinator.SeenIsHistory | nanovllm/engine/transfer_coordinator.py:168-220 | what counts as seen by a call is exactly what the store held while it ran |
| TransferCoordinator.GetReturnsNothingExactly | nanovllm/engine/transfer_coordinator.py:99-220 | in every run, a `get` returns nothing exactly if the task it waited for was superseded before it ended or was a fetch that ended when the store lacked the object |
| TransferCoordinator.NothingReturnedExactly | nanovllm/engine/transfer_coordinator.py:72-121 | a succeeded task has nothing to return exactly if it is an eviction, or superseded, or a fetch while the store lacks the object |
| TransferCoordinator.EndIsRecorded | nanovllm/engine/transfer_coordinator.py:72-97 | whether a task was superseded and what the store held are recorded as it ends, and never change |
| TransferCoordinator.SupersededFetchMisses | nanovllm/engine/transfer_coordinator.py:99-121 | the concrete interleaving in which a `get` returns nothing although the object is in the store throughout |
| TransferCoordinator.Entry.LookUp | nanovllm/engine/transfer_coordinator.py:175-206 | the locked part of `get` does the specified step and never raises for a missing task |
| TransferCoordinator.Entry.WaitOver | nanovllm/engine/transfer_coordinator.py:208-220 | the rest of `get`: leave, then return, raise or look again |
| TransferCoordinator.Entry.StartPut | nanovllm/engine/transfer_coordinator.py:222-248 | the locked part of `put` |
| TransferCoordinator.Entry.StartEvict | nanovllm/engine/transfer_coordinator.py:250-269 | the locked part of `evict` |
| TransferCoordinator.Entry.EndTask | nanovllm/engine/transfer_coordinator.py:72-166 | the end of a fetch, put or eviction |
| CatalogView.MergeRestores | nanovllm/engine/remote_restore.py:221-236 | merging prefixes of a catalog into an empty one, in any order and with repetitions, restores it as soon as its longest prefixes are among them |
| CatalogView.SnapshotUnique | nanovllm/engine/remote_restore.py:186-219 | a snapshot is determined by the content alone: not by insertion order or tree shape |
| CatalogView.SnapshotRoundTrip | nanovllm/engine/remote_restore.py:186-236 | merging a snapshot into an empty catalog restores the content, and its snapshot is the same again |
| CatalogView.LookupUnique | nanovllm/engine/remote_restore.py:182-184 | lookups are determined by the content, so they too are the same again |
| CatalogView.RegisteredOk | nanovllm/engine/remote_restore.py:148-180 | every descriptor's page index is its depth, and all belong to one identity |
| CatalogView.BranchLess | nanovllm/engine/remote_restore.py:207-211 | sorting siblings by edge sorts the leaf paths below them |
| Catalog.RemotePrefixCatalog.Register | nanovllm/engine/remote_restore.py:148-180 | which error is raised exactly when, with nothing changed; otherwise the content gains exactly the missing prefixes, and descriptors exist for exactly the handles in the index |
| Catalog.RemotePrefixCatalog.Match | nanovllm/engine/remote_restore.py:182-184 | the descriptors of the longest registered prefix |
| Catalog.RemotePrefixCatalog.Visit | nanovllm/engine/remote_restore.py:192-211 | the longest prefixes below a node, in order |
| Catalog.RemotePrefixCatalog.TakeSnapshot | nanovllm/engine/remote_restore.py:186-219 | nothing before the first registration; an error iff the content has no common page size or a token beyond 32 bits; otherwise all longest prefixes in order |
| Catalog.MixedPageSizes | nanovllm/engine/remote_restore.py:148-219 | a catalog that is refused: blocks of one and of two tokens, both registered under one identity |
| Catalog.RemotePrefixCatalog.MergeSnapshot | nanovllm/engine/remote_restore.py:221-236 | refused iff the identities differ; otherwise every prefix is registered |
| Publication.NextInv | nanovllm/engine/remote_restore.py:332-489 | every step of the service, its background writes, restarts and writes that take effect only after a restart keeps the invariant |
| Publication.CatalogRefersToWrittenPages | nanovllm/engine/remote_restore.py:348-489 | crash-consistent publication: at every moment of every run, every page that the catalog in memory or in the store refers to was written |
| Publication.WrittenByPut | nanovllm/engine/remote_restore.py:427-474 | an object counts as written only through a PUT of it that succeeded, or that took effect after the process that started it |
| Publication.LeftByRestart | nanovllm/engine/remote_restore.py:332-369 | nothing may still take effect after a restart but PUTs and saves that had no answer when it came |
| Publication.PlannedShares | nanovllm/engine/remote_restore.py:451-466 | a batch shares exactly the PUTs in flight and starts one for every other page to be written |
| Publication.AllOrNothing | nanovllm/engine/remote_restore.py:476-489 | a batch is published as a whole iff all its PUTs succeeded and the catalog accepts it, and otherwise not at all |
| Publication.RestartRecovers | nanovllm/engine/remote_restore.py:332-369 | once all saves have returned and the last succeeded, a restart has the catalog it had before, unless a save of an earlier process took effect since |
| Publication.LateSaveIsRead | nanovllm/engine/remote_restore.py:332-369 | in that case it has the same catalog if and only if the late save was of the same content |
| Publication.LateSaveOvertakes | nanovllm/engine/remote_restore.py:332-369 | a run in which it does not: the late save of one process replaces the confirmed save of the next |
| Writeback.RemoteKVRestoreService.constructor | nanovllm/engine/remote_restore.py:332-346 | a new process has the saved catalog, unless it could not be read or is of another identity |
| Writeback.RemoteKVRestoreService.PagesRequiringWrite | nanovllm/engine/remote_restore.py:405-425 | exactly the pages neither published nor in flight, after failed PUTs were forgotten |
| Writeback.RemoteKVRestoreService.SubmitWriteback | nanovllm/engine/remote_restore.py:427-474 | errors before any write; nothing to do iff everything is published; otherwise the planned PUTs and the pending batch |
| Writeback.RemoteKVRestoreService.CompleteWriteback | nanovllm/engine/remote_restore.py:476-483 | raises iff some PUT has not succeeded, failed or timed out, or the catalog refuses, with nothing changed; otherwise registers, saves and clears what was in flight |
| Writeback.RemoteKVRestoreService.ProcessWriteback | nanovllm/engine/llm_engine.py:237-255 | a batch that is finished or waited for leaves the list, published or failed |
| Writeback.RemoteKVRestoreService.ScheduleCatalogSave | nanovllm/engine/remote_restore.py:348-369 | the snapshot at this moment is handed over, unless there is none, it is malformed or of another identity |
| Writeback.RemoteKVRestoreService.RegisterExistingPrefix | nanovllm/engine/remote_restore.py:401-403 | registration and save; the invariant is kept if the pages were written |
| Writeback.RemoteKVRestoreService.BeginPublish | nanovllm/engine/remote_restore.py:384-395 | up to the wait: nothing is started iff there are no pages or the lengths differ; otherwise one PUT per page is |
| Writeback.RemoteKVRestoreService.EndPublish | nanovllm/engine/remote_restore.py:396-399 | after the wait, whatever happened meanwhile: registered and saved iff every one of these PUTs succeeded |
| Writeback.RemoteKVRestoreService.PlanRestore | nanovllm/engine/remote_restore.py:494-524 | a candidate is offered iff more pages are registered than cached and the planner restores; local < remote < number of pages |
| EventQueue.StepInv | nanovllm/serve/engine_worker.py:47-86 | every step of producers, consumers and event loops keeps the invariant |
| EventQueue.NoLostWakeup | nanovllm/serve/engine_worker.py:60-86 | a consumer suspended while an item is queued has its future set, a call posted or a producer committed to it, and a step of one of these is enabled |
| EventQueue.QuietMeansWoken | nanovllm/serve/engine_worker.py:60-86 | once producers and posted calls are through, whoever still waits beside an item has been woken |
| EventQueue.DeliveredOnceInOrder | nanovllm/serve/engine_worker.py:60-86 | items are taken in the order they were put, each by one call, and the rest is still queued |
| EventQueue.CancelledTakesNothing | nanovllm/serve/engine_worker.py:79-86 | a cancelled wait takes nothing and keeps the invariant |
| EventQueue.GenerationEventQueue.CopyWaiterSet | nanovllm/serve/engine_worker.py:62-63 | the copied waiters are exactly those registered |
| EventQueue.GenerationEventQueue.PostNext | nanovllm/serve/engine_worker.py:64-69 | a wake-up call is posted, or the waiter of a closed loop is dropped |
| EventQueue.GenerationEventQueue.GetNowait | nanovllm/serve/engine_worker.py:79-83 | the oldest item is taken, or the wait starts |
| Qos.BudgetsRunDownTogether | nanovllm/engine/qos.py:231-274 | after arrival a budget only runs down, at the same pace for everybody |
| Qos.OrderNeverChanges | nanovllm/engine/qos.py:269-280 | the order of two requests does not change as clock and step advance |
| Qos.OvertakesExactly | nanovllm/engine/qos.py:269-280 | exactly when a later request goes first |
| Qos.OvertakingIsBounded | nanovllm/engine/qos.py:269-286 | with aging, nobody is overtaken by a request arriving more than spread / aging steps later |
| Qos.LateRequestIsNotSelected | nanovllm/engine/qos.py:276-280 | so the policy never selects such a request while the earlier one waits |
| Qos.Select | nanovllm/engine/qos.py:276-286 | a request that no other goes before |
| Qos.SelectPreemptionVictim | nanovllm/engine/qos.py:299-305 | none iff nobody runs; otherwise a request that goes before no other |
| Qos.VictimIsNotFirst | nanovllm/engine/qos.py:282-305 | the victim is the request served first only if it runs alone |
| Qos.ShouldSchedulePrefill | nanovllm/engine/qos.py:288-297 | never with nobody waiting, always with nobody running, otherwise iff some waiting budget is at most every running one |

## Left out

- Hash prefix backend: only the radix backend is modelled; the hash one needs an injectivity assumption on the chained hash.
- `Block.hash` and `Block.token_ids`: used only by the hash backend; the model has no counterpart.
- Tensor code, CUDA graphs, sampling, weight loading: the model run is the writing of the scheduled KV slots, and sampled tokens are arbitrary.
- KV contents: a slot holds the token prefix it was computed for; attention numerics are not modelled, and a compressed request's own KV counts as unknown.
- Remote page payloads: an import is assumed to bring the KV of the prefix it is registered under; what a store returns instead is not modelled.
- HTTP application, protocol objects, web console, Windows server, launch scripts, benchmarks: plumbing and reporting.
- Mooncake adapter and storage: the backend is a map whose calls may fail, and a put overwrites.
- JSON, BLAKE2b and page codecs: encoding and decoding are taken to be inverse.
- Metrics, traces, reclaim and recompute counters, timestamps: bookkeeping that no decision reads.
- Floating-point rounding: budgets, urgencies, ratios and relevance scores are real numbers.
- Tensor parallelism and several writers of one catalog: declared out of scope by the program itself.
- Request numbers: a request's number is its position in arrival order.
- FCFS policy: it is one instance of the arbitrary chooser, with nothing to prove beyond that.
- `kv_reclaim_target_free_blocks`: a preemption is not claimed to reach it, since shared pages may free fewer than planned.
- Victim order in `_ensure_resume_capacity`: which waiting request gives back its pages first is left to the chooser; the properties hold for any order.
- Scheduling.Scheduler.Cancel: the three queues are searched at once, since a request is in exactly one of them; the transfer's own cancellation is not modelled.
- Scheduling.Scheduler.CompleteRemoteRestore: requires that all pages were imported; the engine's import loop is `EndRestore`, which imports them in order and page by page.
- TransferCoordinator.Entry.LookUp: one key at a time, since entries of different keys share nothing but the lock, which makes each step atomic.
- `close`, `wait_idle`, `snapshot` and empty-key errors of the coordinator: no effect on the protocol.
- Publication.CatalogRefersToWrittenPages: assumes that prefixes registered from outside are of written pages, and that written pages are not evicted from the store.
- Writeback.RemoteKVRestoreService.BeginPublish: `publish_prefix` is split at its wait; the exception for no pages and the one for differing lengths are not told apart.
- Writeback.RemoteKVRestoreService.RegisterExistingPrefix: consistency afterwards is claimed only if the pages it is told of were written, which the program takes on trust.
- Blocks.BlockManager.CompressQueryAware: with an empty recent window, requires that the table spans no more pages than the tokens fill, which `Sequence.block` asserts (`nanovllm/engine/sequence.py`).
- RadixCache.RadixPrefixCache.Insert: requires that the pages offered for prefixes not indexed yet are not indexed elsewhere; the program does not check that, and its callers see to it.
- Engine.LLMEngine.Generate: every transfer the engine waits for is taken to end; a transfer that never does would block the program's own wait.
- Writeback.RemoteKVRestoreService.PlanRestore: the cost comparison of the planner is a free choice.
- Empty object keys and identities, negative ranks: refused when descriptors are made, before anything modelled here.
- EventQueue: the blocking `get` of the underlying queue and its size limit are not modelled.
- `ExecutionTimeEstimator.observe`, percentiles and summaries: the estimates are fixed while an ordering property is stated.
- Order of independent assignments: where the program sets several fields one after the other with nothing in between, the model may set them in another order.
