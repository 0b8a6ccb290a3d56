# Verified models of a KV-cache offloading engine and its surroundings

This project models the parts of a vLLM fork where a mistake would be hard to see, and proves what each part
promises. The main subject is the two-tier KV cache: a small GPU arena managed by an LRU slot map, a host
store behind it, and the operations that fill, spill, mirror, reload, trim and release blocks. The rest are
smaller cores with a law of their own.

| files | subject |
|---|---|
| `SlotMap`, `Recency`, `WorkingSet`, `Speculation` | the LRU slot map, when a step's own blocks can be evicted, and what speculative reloads displace |
| `TierModel`, `TierManager` | the two-tier cache as a specification, raises and the state they leave included, and the imperative manager proved equal to it |
| `TierTransparency`, `TierPlacement`, `TierLive` | nothing is lost or changed over whole runs, where blocks end up, and the two ways rows get lost |
| `TierFailure`, `TierOutcome`, `TierSafety`, `TierRaise` | exactly what each operation raises in any state, why one sequence is never refused, and what a raise leaves behind |
| `TierAccounts`, `TierSuccess`, `TierService` | host slots are conserved, and when operations succeed in terms of what is stored |
| `TierDecodeLoop`, `TierGuesses` | the engine's decode loop over whole runs, and exactly which guesses it can afford |
| `TierHandOver`, `TierTokens`, `TierRecency` | what the history of calls alone decides: whether a hand-over does anything, what each token position holds, and which block must make room |
| `PartitionSignatures`, `PartitionSoundness`, `MemoryPlan` | compiler partition signatures as a liveness pass, and memory planning over nested subgraphs |
| `StreamMix`, `SplitKernel`, `Sinkhorn` | what the hyper-connection mapping does to the streams, the split-K fused kernel against the plain one, and the Sinkhorn section with its one and only fixed point, over the reals |
| `BuildSweep`, `NinjaLog` | shared build time in a sweep over events, and finding the last build in a log |
| `ChunkSizes`, `CumemAllocator` | chunked device memory with a driver that may fail at any call |
| `ModelInspection`, `ModelText` | collapsing identical layers, printing index ranges, and reading a tree back from its printed text |
| `PromptQueue`, `SpinWait` | two concurrent protocols as state machines under every interleaving |
| `BadWords`, `Int8Quant`, `FlatLogprobs`, `RequestOutput`, `TokenSplit` | the bad-word filter, the quantiser, flat log probabilities, output merging, the token split |
| `Arithmetic`, `Lists`, `Sums`, `Text` | shared definitions |

Code that changes state is modelled by classes and methods whose contracts name a specification function of
the old state; the laws are lemmas about those functions. Code that only computes is modelled by functions.
Exceptions are error values that carry the state they leave. The driver answers from an arbitrary script, the event
loop and other threads are nondeterministic: a result holds for everything they may do.

Where the code does not keep a promise of its documentation, the model follows the code, a lemma gives a
concrete case, and another states exactly when the promise holds. These are:

- A residency request under the "mixture" ordering may evict a block of the same step
  (`WorkingSet.MixtureEvictsLiveBlock`, `WorkingSet.NeededNeverEvictedIff`).
- The residency table does not tell sequences apart (`TierSafety.TwoSequencesRefused`,
  `TierOutcome.StepOutcome`).
- A reload can raise although the block is stored and the working set fits: with arena and write-back pool both
  full there is nowhere to put the victim (`TierService.FullPoolsCannotSwap`, `TierSuccess.ResidentOkIff`).
- A write-back spill of a block that still has a host slot loses that slot (`TierAccounts.RewrittenSpillLeaks`,
  `TierAccounts.SpillConservesIff`).
- A block already mirrored is not mirrored again, so refilling it with other rows does not reach the host
  (`TierLive.RefillReloadsOldRows`, `TierTransparency.RefillIff`).
- Guesses may evict the live block, which is promised never to leave while it is the tail: they do when one misses with
  no slot free while the live block is first in line, after a step whose blocks fill the arena exactly or after a guess
  that names it (`TierGuesses.ExactFitGuessTakesLive`, `TierGuesses.NamedGuessTakesLive`,
  `TierGuesses.GuessesGoWellIff`, `Speculation.GuessesEvictIff`).
- A guess into a layer that was not handed its prompt yet raises; one layer guesses for the next before the next layer's
  first step hands it over (`TierGuesses.GuessBeforeHandOver`, `TierGuesses.GuessesGoWellIff`).
- A token appended to a live block that was evicted loses the earlier rows (`TierLive.EvictedLiveBlockLosesRows`,
  `TierLive.AppendKeepsRowsIff`).
- Freed names enter a partition's inputs unfiltered (`PartitionSoundness.StrayFreeHappens`,
  `PartitionSoundness.InputsBoundIff`).
- The final check of memory planning accepts lines that are not well nested (`MemoryPlan.ExitBeforeEnter`,
  `MemoryPlan.PlanReuse`).
- The split kernel drops positions unless the sizes divide (`SplitKernel.OnesComeShort`,
  `SplitKernel.FusedIsPlainIff`).
- Chunk arithmetic wraps near the top of the 64-bit range (`ChunkSizes.LargestSettingWraps`,
  `ChunkSizes.ChunkingIff`).
- An error pending on entry makes chunk creation leak a handle (`CumemAllocator.PendingErrorLeaks`,
  `CumemAllocator.Allocator.CreateAndMap`).
- A colon or a dot in a module name makes different layers look alike (`ModelInspection.ColonInName`,
  `ModelInspection.DotInName`, `ModelInspection.SignatureInjectiveIff`).
- Printed text is ambiguous when a name looks like a label (`ModelText.ClosingInName`, `ModelText.NameLikeLabel`,
  `ModelText.PrintedTextIff`).
- A row far from zero with little spread overflows the zero point (`Int8Quant.ZeroPointOverflows`,
  `Int8Quant.ZeroPointFitsIff`).
- Log probabilities sent late fail an assertion (`RequestOutput.LateLogprobsRefused`,
  `RequestOutput.StreamAggregatesIff`).

Transparency of the cache (`TierTransparency.StepRefines`) asks its caller for what the engine does: a block is
written before it is mirrored or rewritten unchanged, a prompt is handed over once and before its blocks are
written otherwise, and a token is appended at the end of a block that is resident or new.

## Model

| member | source | states |
|---|---|---|
| SlotMap.Victim | vllm/v1/attention/backends/quest/cache/tier_manager.py:84-91 | the evicted key is unprotected whenever some held key is, and the oldest one otherwise |
| SlotMap.AddValid | vllm/v1/attention/backends/quest/cache/tier_manager.py:67-94 | adding a key fails only with no capacity; otherwise every held key has its own slot, the new key gets one nobody holds and only the victim is disturbed |
| SlotMap.TouchValid | vllm/v1/attention/backends/quest/cache/tier_manager.py:62-65 | a lookup moves its key to the back of the eviction order and keeps the slot table one-to-one |
| SlotMap.FreeValid | vllm/v1/attention/backends/quest/cache/tier_manager.py:96-99 | freeing a key returns its slot to the free list and keeps the slot table one-to-one |
| TierManager.SlotTable.constructor | vllm/v1/attention/backends/quest/cache/tier_manager.py:54-57 | a new table holds nothing and all its slots are free |
| TierManager.SlotTable.Get | vllm/v1/attention/backends/quest/cache/tier_manager.py:62-65 | the lookup returns the key's slot and leaves the table the touched specification table |
| TierManager.SlotTable.AddKey | vllm/v1/attention/backends/quest/cache/tier_manager.py:67-94 | the imperative add, with its search for a victim, leaves exactly the specification's table, slot and victim |
| TierManager.SlotTable.FirstUnprotected | vllm/v1/attention/backends/quest/cache/tier_manager.py:84-91 | the search loop finds the first unprotected key in eviction order, or reports that there is none |
| TierManager.SlotTable.FreeKey | vllm/v1/attention/backends/quest/cache/tier_manager.py:96-99 | the imperative free leaves exactly the specification's table |
| WorkingSet.NeededNeverEvictedIff | vllm/v1/attention/backends/quest/cache/tier_manager.py:638-683 | for every cache state and request that fits, no block the step needs is evicted while its misses are reloaded if and only if the slots left over by protected blocks suffice; then everything needed ends up resident |
| WorkingSet.PlainLruKeepsWorkingSet | vllm/v1/attention/backends/quest/cache/tier_manager.py:638-700 | with nothing protected the documented guarantee always holds for a working set that fits |
| WorkingSet.MixtureEvictsLiveBlock | vllm/v1/attention/backends/quest/cache/tier_manager.py:638-683 | with protection it fails: a concrete full arena where reloading one miss evicts the live block of the same step |
| WorkingSet.ReloadSpares | vllm/v1/attention/backends/quest/cache/tier_manager.py:67-94 | under the condition a whole reload pass evicts nothing needed and leaves all of it held |
| WorkingSet.ReloadEvictsNeeded | vllm/v1/attention/backends/quest/cache/tier_manager.py:67-94 | without it some needed block is evicted |
| Recency.OrderIsRecency | vllm/v1/attention/backends/quest/cache/tier_manager.py:49-99 | over every history of uses, demotions and frees the eviction order is the order of last use |
| Recency.VictimIsLeastRecent | vllm/v1/attention/backends/quest/cache/tier_manager.py:67-94 | the victim of an addition is the unprotected key used longest ago, or of all keys if every one is protected |
| TierRecency.StepCalls | vllm/v1/attention/backends/quest/cache/tier_manager.py:298-936 | for eviction an operation of the layer is no more than a list of blocks used, demoted and dropped, in a stated order |
| TierRecency.EvictsLeastRecent | vllm/v1/attention/backends/quest/cache/tier_manager.py:67-94 | over every run from a new layer, what a full arena gives up is the block used longest ago among those not protected |
| TierTransparency.PlaceStored | vllm/v1/attention/backends/quest/cache/tier_manager.py:846-901 | making room for a block loses nothing: the victim's rows are on the host before its slot is reused |
| TierTransparency.FillStored | vllm/v1/attention/backends/quest/cache/tier_manager.py:298-334 | a filled block that is new to the mirror reads back as written and every other block is unchanged |
| TierTransparency.RefillIff | vllm/v1/attention/backends/quest/cache/tier_manager.py:792-824 | a block is mirrored at most once, so refilling a mirrored block is transparent if and only if the mirror already holds the new rows |
| TierTransparency.LiveStored | vllm/v1/attention/backends/quest/cache/tier_manager.py:400-419 | copying the live block stores exactly its rows and disturbs no other block |
| TierTransparency.AppendStored | vllm/v1/attention/backends/quest/cache/tier_manager.py:524-573 | an appended token extends the live block's rows by that token |
| TierTransparency.EnsureOneStored | vllm/v1/attention/backends/quest/cache/tier_manager.py:719-747 | reloading a block changes where it lives and never what any block holds |
| TierTransparency.EnsureResidentStored | vllm/v1/attention/backends/quest/cache/tier_manager.py:638-683 | neither does a whole residency request |
| TierTransparency.PrefetchStored | vllm/v1/attention/backends/quest/cache/tier_manager.py:903-936 | neither does prefetching |
| TierTransparency.TrimStored | vllm/v1/attention/backends/quest/cache/tier_manager.py:336-398 | after the hand-over every prompt block reads back, whether kept on the GPU or spilled |
| TierTransparency.IngestStored | vllm/v1/attention/backends/quest/cache/tier_manager.py:421-522 | ingesting a prompt stores its full blocks and its partial tail |
| TierTransparency.ReleaseStored | vllm/v1/attention/backends/quest/cache/tier_manager.py:575-636 | releasing a sequence forgets its blocks and disturbs no other sequence |
| TierTransparency.EmptyRepresents | vllm/v1/attention/backends/quest/cache/tier_manager.py:103-201 | a new manager stands for the empty cache |
| TierTransparency.StepRefines | vllm/v1/attention/backends/quest/cache/tier_manager.py:298-936 | every operation of the two-tier cache refines the same operation on one plain map from blocks to rows |
| TierTransparency.RunRefines | vllm/v1/attention/backends/quest/cache/tier_manager.py:298-936 | after any run of operations, of any length and mix, both tiers together still hold exactly the plain map |
| TierTransparency.ReturnedReadsBack | vllm/v1/attention/backends/quest/cache/tier_manager.py:638-683 | when a residency request returns, with any number of sequences cached, every selected block and the live block sit in the arena with exactly the rows last written |
| TierFailure.PlaceFails | vllm/v1/attention/backends/quest/cache/tier_manager.py:67-94 | making room fails, and with which error, exactly according to who is first in line for eviction, whether its copy or a host slot exists, and what its table row says |
| TierFailure.WritesFail | vllm/v1/attention/backends/quest/cache/tier_manager.py:298-419 | filling a block and copying the live block raise exactly when making room or finding a mirror slot fails |
| TierFailure.AppendFails | vllm/v1/attention/backends/quest/cache/tier_manager.py:524-573 | so does appending a token, where only the one that completes a block needs a mirror slot |
| TierFailure.StageFails | vllm/v1/attention/backends/quest/cache/tier_manager.py:508-522 | staging the partial last block raises exactly when making room fails |
| TierFailure.ReloadOkIff | vllm/v1/attention/backends/quest/cache/tier_manager.py:719-747 | the exact outcome of asking for one block in any state: resident, never stored, no room to be made, or a table row that does not read as it must |
| TierFailure.ReloadRefusedIff | vllm/v1/attention/backends/quest/cache/residency.py:41-68 | a reload is refused by the table if and only if its row is not on the CPU or, in a full arena, its victim's row may not be evicted; a victim of the same block index makes the row right |
| TierOutcome.TrimRefusedIff | vllm/v1/attention/backends/quest/cache/tier_manager.py:336-398 | a prompt hand-over is refused if and only if the pool lasts up to a block that is to be sent out while its row may not be evicted |
| TierOutcome.PassOutcome | vllm/v1/attention/backends/quest/cache/tier_manager.py:702-747 | the exact outcome of a residency pass or a prefetch in any state: the first failure along the slot map's trace, with the table rows and host slots that earlier loads and evictions leave |
| TierOutcome.TrimOutcome | vllm/v1/attention/backends/quest/cache/tier_manager.py:336-398 | the exact outcome of a prompt hand-over in any state, by counting the arena and host slots its earlier blocks take, and what it leaves |
| TierOutcome.IngestOutcome | vllm/v1/attention/backends/quest/cache/tier_manager.py:421-522 | the same for ingesting a prompt, whose partial last block may still find no room |
| TierOutcome.StepOutcome | vllm/v1/attention/backends/quest/cache/tier_manager.py:298-936 | exactly which error every operation raises, if any, in any state and whatever sequences are cached, read off the state before the call |
| TierSafety.OneSequenceNeverRefused | vllm/v1/attention/backends/quest/cache/residency.py:38-77 | while one sequence uses a layer every row reads as the tiers are: no operation is refused by the table |
| TierSafety.TwoSequencesRefused | vllm/v1/attention/backends/quest/cache/residency.py:61-68 | with two sequences it is not so: the table is keyed by block alone, and filling a block for one sequence makes the reload of the other's intact copy fail |
| TierSafety.ReleaseTracks | vllm/v1/attention/backends/quest/cache/tier_manager.py:575-636 | releasing a sequence leaves slots, host copies and residency table as new for the next |
| TierAccounts.SpillConservesIff | vllm/v1/attention/backends/quest/cache/tier_manager.py:846-901 | a write-back spill conserves host slots if and only if the victim did not hold one already |
| TierAccounts.RewrittenSpillLeaks | vllm/v1/attention/backends/quest/cache/tier_manager.py:846-901 | a slot lost: a spilled block is written without being reloaded and evicted again, and its first host slot is neither free nor recorded any more |
| TierAccounts.WriteAccounted | vllm/v1/attention/backends/quest/cache/tier_manager.py:298-419 | writing a block that is not spilled keeps every host slot either free or held |
| TierAccounts.AppendAccounted | vllm/v1/attention/backends/quest/cache/tier_manager.py:524-573 | so does appending to one |
| TierAccounts.EnsureOneAccounted | vllm/v1/attention/backends/quest/cache/tier_manager.py:719-747 | so does reloading a block |
| TierAccounts.TrimAccounted | vllm/v1/attention/backends/quest/cache/tier_manager.py:336-398 | so does handing over a prompt, which takes most of the slots |
| TierAccounts.IngestAccounted | vllm/v1/attention/backends/quest/cache/tier_manager.py:421-522 | so does ingesting one |
| TierAccounts.ReleaseAccounted | vllm/v1/attention/backends/quest/cache/cpu_backing_store.py:57-69 | releasing returns exactly the host slots the sequence held |
| TierAccounts.StepConserves | vllm/v1/attention/backends/quest/cache/tier_manager.py:298-936 | every operation keeps every host slot free or held, if no spilled block is written before it is reloaded |
| TierAccounts.NewAccounted | vllm/v1/attention/backends/quest/cache/cpu_backing_store.py:28-55 | a new layer has all its host slots free and stands for the empty cache |
| TierAccounts.RunConserves | vllm/v1/attention/backends/quest/cache/tier_manager.py:298-936 | over every run from a new layer, whatever sequences it serves, no host slot is lost |
| TierAccounts.ReleasedPoolIsWhole | vllm/v1/attention/backends/quest/cache/tier_manager.py:575-636 | at the end of every such run, releasing the last sequence with host copies leaves every host slot free |
| TierSuccess.OneOkIff | vllm/v1/attention/backends/quest/cache/tier_manager.py:719-747 | while one sequence uses the layer a block becomes resident if and only if it was stored and whatever makes room for it has a copy or a host slot to go to |
| TierSuccess.EnsureAllOkIff | vllm/v1/attention/backends/quest/cache/tier_manager.py:702-717 | a whole pass goes through if and only if all its blocks were stored and all its victims are sheltered; under write-back one spare slot shelters any number of victims |
| TierSuccess.ResidentOkIff | vllm/v1/attention/backends/quest/cache/tier_manager.py:638-683 | the exact condition for a residency request to succeed, in terms of the slot map before the call |
| TierSuccess.PrefetchOkIff | vllm/v1/attention/backends/quest/cache/tier_manager.py:903-936 | the same for a prefetch, whose victims come in another order |
| TierSuccess.TrimOkIff | vllm/v1/attention/backends/quest/cache/tier_manager.py:336-398 | a prompt hand-over to an unused layer succeeds if and only if the pool takes the blocks that go to the host |
| TierSuccess.IngestOkIff | vllm/v1/attention/backends/quest/cache/tier_manager.py:421-522 | ingesting succeeds under the same condition, given an arena for a partial last block |
| TierSuccess.StepOkIff | vllm/v1/attention/backends/quest/cache/tier_manager.py:298-936 | exactly when any operation succeeds while one sequence uses the layer, under write-through and write-back |
| TierSuccess.StockTaking | vllm/v1/attention/backends/quest/cache/tier_manager.py:846-901 | under write-back blocks and free slots of both pools together number all slots |
| TierSuccess.WriteBackOkIff | vllm/v1/attention/backends/quest/cache/tier_manager.py:298-936 | write-back success in numbers: a write fails if and only if the blocks would outnumber all slots, a reload of a missing block if and only if they fill them all, a hand-over if and only if the prompt has no fewer blocks than there are slots |
| TierService.StepServes | vllm/v1/attention/backends/quest/cache/tier_manager.py:298-936 | an operation with enough slots succeeds and leaves a layer that represents the plain map, with table and books in order |
| TierService.RunNeverRaises | vllm/v1/attention/backends/quest/cache/tier_manager.py:298-936 | whatever mix of operations a write-back layer serves, request after request, it never raises while its blocks number fewer than its slots, and represents the plain map throughout; no step is assumed to succeed |
| TierService.SelectedBlocksReadBack | vllm/v1/attention/backends/quest/cache/tier_manager.py:638-683 | asking for stored blocks succeeds, and every selected block and the live block then sit in the arena with exactly the rows last written, if the working set fits, protection leaves room and unneeded blocks can be given up |
| TierService.PlainLruReadsBack | vllm/v1/attention/backends/quest/cache/tier_manager.py:638-683 | with plain LRU every working set that fits reads back, if unneeded blocks are mirrored or one slot is spare |
| TierService.FullPoolsCannotSwap | vllm/v1/attention/backends/quest/cache/tier_manager.py:719-747 | with arena and write-back pool both full no spilled block can be reloaded: the victim's slot is sought before the one being read is given back, and the raise loses the record and the victim |
| TierDecodeLoop.HabitProper | vllm/v1/attention/backends/quest/impl_helpers.py:101-172 | the loop's habits imply every discipline the cache asks for; nothing has to be assumed about where blocks are |
| TierDecodeLoop.RequestReadsBack | vllm/v1/attention/backends/quest/impl_helpers.py:447-460 | a request that keeps the live block goes through, and all it selected and the live block read back |
| TierDecodeLoop.TurnSucceeds | vllm/v1/attention/backends/quest/impl_helpers.py:101-172 | every turn of the loop, whole-block copies, appended tokens and guesses alike, succeeds in either mode and keeps the live block in the arena and, under write-through, everything else mirrored |
| TierDecodeLoop.DecodeLoopNeverRaises | vllm/v1/attention/backends/quest/impl_helpers.py:101-172 | over whole runs from a new layer, request after request, in either mode, under either ordering and with trusted or untrusted guesses of stored blocks that spare the live one, no operation of the decode loop raises; no step is assumed to succeed and no block to be resident |
| TierDecodeLoop.LiveBlockStays | vllm/v1/attention/backends/quest/cache/tier_manager.py:407-412 | at every moment of such a run the live block is in the arena with its rows, and after every request so is everything selected |
| TierHandOver.StepNotes | vllm/v1/attention/backends/quest/cache/tier_manager.py:353-355 | whether it returns or raises, a hand-over marks its sequence, only a release takes the mark and the remembered selection away, and no other operation touches either |
| TierHandOver.HandOverOnce | vllm/v1/attention/backends/quest/cache/tier_manager.py:345-355 | handing over twice is handing over once: after a hand-over of either kind, even one that raised, a second one of either kind leaves the layer exactly as it is |
| TierHandOver.HandOverByHistory | vllm/v1/attention/backends/quest/cache/tier_manager.py:336-522 | at every moment of every run, for any number of sequences, a hand-over changes nothing if the sequence was handed over since its last release, and otherwise stores exactly its prompt; only the history of calls decides |
| TierHandOver.HandOverEveryStep | vllm/v1/attention/backends/quest/impl_helpers.py:147-153 | in the decode loop the hand-over may be asked for again at any later moment, as the engine does at every step, with whatever blocks, and it is a turn that changes nothing |
| TierHandOver.ProtectsLastSelection | vllm/v1/attention/backends/quest/cache/tier_manager.py:253-272 | at every moment of every run a sequence protects exactly the selection last remembered for it under the mixture ordering, and nothing once it was released |
| TierHandOver.ReleaseUnseen | vllm/v1/attention/backends/quest/cache/tier_manager.py:584-584 | releasing a sequence of which nothing is cached or noted does nothing |
| TierHandOver.ReleaseTwice | vllm/v1/attention/backends/quest/cache/tier_manager.py:575-636 | releasing twice is releasing once |
| TierTokens.TokensAreHistory | vllm/v1/attention/backends/quest/cache/tier_manager.py:298-636 | after any run from a new layer every position of every sequence holds the rows of the last call that wrote it, token by token, decided by the history of calls alone |
| TierTokens.SelectedTokensReadBack | vllm/v1/attention/backends/quest/cache/tier_manager.py:638-700 | read your writes: when a request that fits returns, every written position of every block it needs is in the arena with the key row and value row of the last call that wrote it |
| TierTokens.LoopTokensReadBack | vllm/v1/attention/backends/quest/impl_helpers.py:447-460 | the same in the decode loop, where nothing is assumed to succeed |
| TierGuesses.GuessesGoWellIff | vllm/v1/attention/backends/quest/impl_helpers.py:529-554 | at any moment of the loop, in either mode, under either ordering and with or without trust, a list of guesses returns with the live block in place if and only if every guess is stored and the list spares the live block: under write-through no guess misses into a full arena while the live block is the victim, under write-back the live block is held at the end |
| TierGuesses.GuessBeforeHandOver | vllm/v1/attention/backends/quest/impl_helpers.py:529-554 | a guess for a sequence whose prompt was not handed over to the layer yet, whatever other sequences have cached, raises and leaves the layer as it was |
| TierGuesses.NamedGuessTakesLive | vllm/v1/attention/backends/quest/impl_helpers.py:402-404 | a block that is full in one layer and still live in the next is guessed there: the guess hits, leaves the live block first in line, and the next guess that misses takes it out, which under write-through raises, whatever slots were left over |
| TierGuesses.ExactFitGuessTakesLive | vllm/v1/attention/backends/quest/cache/tier_manager.py:903-936 | when a step's blocks fill the arena exactly, the next guess that misses takes the live block out, which under write-through raises |
| TierGuesses.CautiousIsTurn | vllm/v1/attention/backends/quest/cache/tier_manager.py:903-936 | habits stated without looking into the layer, a slot left over by each request and the live block guessed last and not again before it is written or kept, make every list of guesses one that spares the live block |
| TierGuesses.CautiousLoopNeverRaises | vllm/v1/attention/backends/quest/cache/tier_manager.py:903-936 | over whole runs from a new layer a guessing loop with those habits never raises, guesses naming the live block included |
| Speculation.VictimsIff | vllm/v1/attention/backends/quest/cache/tier_manager.py:903-930 | under any protection, trusted or not, a list of guesses evicts a block if and only if some guess takes it: it misses with no slot free while that block is the victim of what the guesses before it left |
| Speculation.FirstIsGuess | vllm/v1/attention/backends/quest/cache/tier_manager.py:921-930 | after any list of untrusted guesses, hits or misses, the last one is first in line |
| Speculation.GuessesEvictIff | vllm/v1/attention/backends/quest/cache/tier_manager.py:921-930 | a list of untrusted guesses, with repetitions and hits, evicts a block, named or not, if and only if some guess misses with no slot free while the block is first in line, which is the front of the order for the first guess and the guess before for every other |
| Speculation.GuessesSpare | vllm/v1/attention/backends/quest/cache/tier_manager.py:921-930 | a block not first in line survives any list of guesses that names it at most as the last one, and is still not first in line unless it was that one |
| Speculation.OnlyLastGuessSurvives | vllm/v1/attention/backends/quest/cache/tier_manager.py:921-930 | in a full arena every list of missing blocks guessed leaves only its last one, in the slot of the block that was first in line, and the rest as it was |
| Speculation.SlackSpares | vllm/v1/attention/backends/quest/cache/tier_manager.py:638-683 | after a request that leaves a slot over, no needed block is first in line |
| Speculation.ExactFitExposes | vllm/v1/attention/backends/quest/cache/tier_manager.py:638-683 | after one that fills the arena exactly the live block is, because it is touched before the selection |
| Speculation.NamedIsTaken | vllm/v1/attention/backends/quest/cache/tier_manager.py:921-930 | a held block guessed just before a missing one is evicted from a full arena, wherever it stood in line |
| TierRaise.RequestRaises | vllm/v1/attention/backends/quest/cache/tier_manager.py:702-747 | a residency request that raises loses a block exactly when making room failed, or when a write-back reload popped its record and found no arena; asking for an unknown block loses nothing |
| TierRaise.PrefetchRaises | vllm/v1/attention/backends/quest/cache/tier_manager.py:903-936 | so does a prefetch |
| TierRaise.TrimRaises | vllm/v1/attention/backends/quest/cache/tier_manager.py:336-398 | a hand-over can only raise on a full pool, and keeps everything stored before |
| TierRaise.RaiseLosesIff | vllm/v1/attention/backends/quest/cache/tier_manager.py:298-936 | for every operation, which raises lose a block and which leave all others readable as before |
| TierRaise.IntactNotLost | vllm/v1/attention/backends/quest/cache/tier_manager.py:298-936 | the two exclude each other |
| TierLive.AppendKeepsRowsIff | vllm/v1/attention/backends/quest/cache/tier_manager.py:524-573 | appending to a block with earlier rows is transparent if and only if those rows already lie in the slot the token is written to: its own, the last freed one, or that of the block first in line for eviction |
| TierLive.OwnerDecides | vllm/v1/attention/backends/quest/cache/tier_manager.py:67-94 | a resident block always meets that; an evicted one meets it if and only if the full block giving up its slot starts with the same rows |
| TierLive.EvictedLiveBlockLosesRows | vllm/v1/attention/backends/quest/cache/tier_manager.py:524-573 | rows lost: a live block pushed out of a one-slot arena gets its next token written onto the rows of the block that pushed it out |
| TierLive.RefillReloadsOldRows | vllm/v1/attention/backends/quest/cache/tier_manager.py:792-824 | a mirrored block filled with new rows, evicted and reloaded comes back with the old ones |
| TierManager.Layer.constructor | vllm/v1/attention/backends/quest/cache/tier_manager.py:103-201 | a new layer holds nothing, all its host slots are free in descending order, and its table, markers and selections are empty |
| TierManager.Layer.SpillHook | vllm/v1/attention/backends/quest/cache/tier_manager.py:846-901 | evicting to the host leaves exactly the specification's state, after a failure too |
| TierManager.Layer.MirrorToHost | vllm/v1/attention/backends/quest/cache/tier_manager.py:792-824 | mirroring copies a block to the host once and otherwise changes nothing |
| TierManager.Layer.MakeRoom | vllm/v1/attention/backends/quest/cache/tier_manager.py:67-94 | placing a key and spilling its victim agree with the specification, failures and what they leave behind included |
| TierManager.Layer.WriteLiveBlock | vllm/v1/attention/backends/quest/cache/tier_manager.py:400-419 | agrees with the specification of the live-block copy |
| TierManager.Layer.OnBlockFilled | vllm/v1/attention/backends/quest/cache/tier_manager.py:298-334 | agrees with the specification of filling a block |
| TierManager.Layer.AppendDecodeToken | vllm/v1/attention/backends/quest/cache/tier_manager.py:524-573 | agrees with the specification of appending one row |
| TierManager.Layer.EnsureOneSync | vllm/v1/attention/backends/quest/cache/tier_manager.py:719-747 | agrees with the specification of making one block resident |
| TierManager.Layer.ReloadFromHost | vllm/v1/attention/backends/quest/cache/tier_manager.py:724-747 | agrees with the specification of one reload, table transitions and slot bookkeeping included |
| TierManager.Layer.TakeRecord | vllm/v1/attention/backends/quest/cache/tier_manager.py:724-730 | a spilled block's record is taken out, a mirror's is only read |
| TierManager.Layer.EnsureResident | vllm/v1/attention/backends/quest/cache/tier_manager.py:638-683 | agrees with the two-pass specification |
| TierManager.Layer.TouchResident | vllm/v1/attention/backends/quest/cache/tier_manager.py:685-700 | the first pass touches exactly the needed blocks that are resident |
| TierManager.Layer.EnsureEach | vllm/v1/attention/backends/quest/cache/tier_manager.py:702-717 | the second pass makes the listed blocks resident in order, stopping at the first failure |
| TierManager.Layer.TrimToWorkingSet | vllm/v1/attention/backends/quest/cache/tier_manager.py:336-398 | the hand-over loop agrees with its specification and runs once per sequence |
| TierManager.Layer.TrimOne | vllm/v1/attention/backends/quest/cache/tier_manager.py:359-398 | one block of the hand-over is kept or sent to the host as the specification says |
| TierManager.Layer.FreeRequest | vllm/v1/attention/backends/quest/cache/tier_manager.py:575-636 | agrees with the specification of releasing a sequence |
| TierManager.Layer.ReturnHostSlots | vllm/v1/attention/backends/quest/cache/cpu_backing_store.py:57-69 | the loop returns exactly the listed host slots |
| TierManager.Layer.FreeSlots | vllm/v1/attention/backends/quest/cache/tier_manager.py:608-613 | the loop frees exactly the sequence's arena slots |
| TierManager.SlotTable.DemoteKey | vllm/v1/attention/backends/quest/cache/tier_manager.py:927-930 | moves a key to the front of the eviction order and keeps the table one-to-one |
| TierManager.Layer.PrefetchTopIds | vllm/v1/attention/backends/quest/cache/tier_manager.py:903-936 | the loop agrees with the specification of prefetching |
| TierManager.Layer.RememberSelected | vllm/v1/attention/backends/quest/cache/tier_manager.py:253-272 | afterwards reloads for the sequence spare exactly these blocks under the mixture ordering and none otherwise, and what other sequences protect is unchanged |
| TierManager.Layer.PrefillIngest | vllm/v1/attention/backends/quest/cache/tier_manager.py:421-522 | agrees with the specification of ingesting a prompt |
| TierManager.Layer.StageRows | vllm/v1/attention/backends/quest/cache/tier_manager.py:508-522 | agrees with the specification of staging the partial last block |
| TierPlacement.WritesLand | vllm/v1/attention/backends/quest/cache/tier_manager.py:298-419 | a filled or live block ends up in the arena with its rows, at most one other block leaves it, and only a filled one is mirrored |
| TierPlacement.PlaceMoves | vllm/v1/attention/backends/quest/cache/tier_manager.py:67-94 | making room keeps every resident block when a slot is free and otherwise gives up exactly one |
| TierPlacement.EnsureOneLands | vllm/v1/attention/backends/quest/cache/tier_manager.py:719-747 | a block made resident is in the arena, and at most one other has left it |
| TierPlacement.PrefetchFirstOut | vllm/v1/attention/backends/quest/cache/tier_manager.py:903-936 | the block prefetched last is resident and, unless guesses are trusted, the first to be evicted |
| TierPlacement.PrefetchIsSpeculation | vllm/v1/attention/backends/quest/cache/tier_manager.py:903-936 | a prefetch leaves exactly the slot map that its guesses make of it |
| TierPlacement.OnlyLastPrefetchStays | vllm/v1/attention/backends/quest/cache/tier_manager.py:903-936 | of any list of missing blocks prefetched into a full arena without trust only the last stays |
| TierPlacement.SelectionProtects | vllm/v1/attention/backends/quest/cache/tier_manager.py:253-272 | a remembered selection protects exactly its own blocks of its own sequence, and only under the mixture ordering |
| TierPlacement.RememberedStaysResident | vllm/v1/attention/backends/quest/cache/tier_manager.py:253-272 | a later reload for that sequence leaves every remembered block resident as long as some other block can make room |
| TierPlacement.TrimSplits | vllm/v1/attention/backends/quest/cache/tier_manager.py:336-398 | of a new prompt exactly the last blocks, one fewer than the arena has slots, are in the arena, and all earlier ones on the host |
| TierPlacement.ReleaseExact | vllm/v1/attention/backends/quest/cache/tier_manager.py:575-636 | a release drops every slot, copy and protection of its sequence and leaves every other where it was |
| PartitionSignatures.GetSignatures | vllm/env_override.py:235-336 | the backward loop returns, per partition, the signature the specification gives for the names still unmet, truncated like the zip it runs over, and fails exactly when some returned name has no node; every name taken in or returned is bound to its own node, every input is marked, and with lists of equal length partition i has flag i and its own constants |
| PartitionSoundness.SignatureFields | vllm/env_override.py:282-328 | inputs, outputs and deallocation flags of a built signature are exactly the sets the soundness results speak about, each name bound to its own node, with the given flag and the inputs among the constants |
| PartitionSoundness.LayoutsAgreeIff | vllm/env_override.py:215-233 | a real buffer is allocated as its layout says, and an alias like the buffer it mutates if and only if it is a mutation output or the layouts agree anyway |
| PartitionSoundness.InputsBoundIff | vllm/env_override.py:212-336 | when the partitions are called in order, an input is in scope if and only if it is not a free of a buffer that was never allocated; inputs that are used are always there |
| PartitionSoundness.NodesFindTheirBuffers | vllm/env_override.py:247-266 | inside a partition every node finds each allocated buffer it uses among the inputs and earlier results |
| PartitionSoundness.OutputsAreThere | vllm/env_override.py:297-313 | every returned buffer is alive when the partition returns |
| PartitionSoundness.SignaturesAlwaysBuilt | vllm/env_override.py:309-313 | for a schedule that runs, building the signatures never fails |
| PartitionSoundness.GraphOutputsBound | vllm/env_override.py:212-334 | after the last call every allocated graph output is in scope under its real name |
| PartitionSoundness.GraphOutputReturned | vllm/env_override.py:293-313 | every allocated graph output is returned under its real name by the partition that produces it |
| PartitionSoundness.PassedAlong | vllm/env_override.py:293-313 | the producer of a later input returns it, and so does every partition in between that takes it in |
| PartitionSoundness.ReturnedIsWanted | vllm/env_override.py:243-313 | nothing is returned for nobody: it is an input passed on, or produced here for a graph output or a later partition |
| PartitionSoundness.WantedByWhom | vllm/env_override.py:332-334 | every unmet name is a graph output or an input of a later partition |
| PartitionSoundness.WantedIsBound | vllm/env_override.py:235-334 | what is wanted and alive is in scope at every point of the run |
| PartitionSoundness.StrayFreeHappens | vllm/env_override.py:268-280 | a schedule that runs and still takes in a name that is not in scope, because freed names are not filtered like read ones |
| MemoryPlan.Trim | vllm/env_override.py:166-172 | what is popped is the longest tail of planning lines for names the graph does not return |
| MemoryPlan.PlanReuse | vllm/env_override.py:166-186 | planning succeeds if and only if no line leaves or plans with nothing open and the lines end at the outermost level, and then every planning line is planned with its innermost open state; each failure is told apart by what it found |
| MemoryPlan.StackIff | vllm/env_override.py:174-184 | the stack of states exists exactly as long as the nesting depth allows and is as deep as that |
| MemoryPlan.SharedIff | vllm/env_override.py:176-184 | two planning lines share a planning state if and only if they lie in the same subgraph |
| MemoryPlan.ExitBeforeEnter | vllm/env_override.py:181-186 | the final assertion accepts lines that are not well nested: an exit before its enter |
| SplitKernel.NewResidualAt | vllm/_tilelang_ops.py:425-429 | the unrolled loops compute the post-mapping of one position |
| SplitKernel.StoreResidual | vllm/_tilelang_ops.py:431-435 | the first tile stores one position of the residual and adds its squares |
| SplitKernel.Accumulate | vllm/_tilelang_ops.py:437-440 | the fused multiply-adds add one position's dot product to each column of the tile |
| SplitKernel.Thread | vllm/_tilelang_ops.py:421-440 | a thread accumulates exactly its strided share of the slice and writes exactly its positions |
| SplitKernel.Warp | vllm/_tilelang_ops.py:442-452 | lane 0 stores the sums of the warp's lanes, and nobody else's row changes |
| SplitKernel.Block | vllm/_tilelang_ops.py:391-467 | a block writes, for its columns and its split only, the plain sums over its slice |
| SplitKernel.FusedKernel | vllm/_tilelang_ops.py:374-467 | the launch writes every split's partial sums and the residual wherever a thread came by, and nothing else |
| SplitKernel.BlockSumIsSlice | vllm/_tilelang_ops.py:421-467 | lanes, warps and strides add every position of the slice once |
| SplitKernel.SplitsAddUp | vllm/_tilelang_ops.py:88-95 | when splits and threads divide the hidden size the splits' sums are the plain sum |
| SplitKernel.OnesComeShort | vllm/_tilelang_ops.py:376-467 | an input on which it shows: all ones, whenever splits times threads do not divide the hidden size |
| SplitKernel.FusedIsPlainIff | vllm/_tilelang_ops.py:376-467 | the split sums are the plain dot product on every input if and only if splits times threads divide the hidden size |
| SplitKernel.FusedNormIff | vllm/_tilelang_ops.py:431-467 | the same for the squared norm |
| SplitKernel.ResidualStoredIff | vllm/_tilelang_ops.py:421-435 | the residual is completely written under exactly the same condition |
| SplitKernel.ColumnsDoneIff | vllm/_tilelang_ops.py:455-461 | every output column is written if and only if the tiles fill the columns and are no wider than a warp |
| SplitKernel.PostKernel | vllm/_tilelang_ops.py:494-525 | the unfused kernel writes the post-mapping at every position, and with a matrix of one entry (a, b) it feeds stream a into stream b and nothing else anywhere |
| SplitKernel.SumSplits | vllm/_tilelang_ops.py:83-95 | the next kernel adds the splits and scales by the root mean square |
| SplitKernel.FusedMixes | vllm/_tilelang_ops.py:374-467 | end to end, the fused path yields the plain dot products, scaled by the plain root mean square, and the unfused kernel's residual; single entries of the matrix and single weights route and read streams as they say |
| StreamMix.LinearInStreams | vllm/_tilelang_ops.py:425-429 | the post-mapping is linear in the streams and the layer output together |
| StreamMix.LinearInMix | vllm/_tilelang_ops.py:425-429 | and in the matrix and the spread of the layer output together |
| StreamMix.RouteFeeds | vllm/_tilelang_ops.py:425-429 | a matrix of one entry (a, b) adds exactly stream a to stream b and nothing to the others |
| StreamMix.MovedWhole | vllm/_tilelang_ops.py:516-523 | a permutation matrix moves every stream whole to its new place |
| StreamMix.MixBounded | vllm/_tilelang_ops.py:516-523 | with positive columns that sum to at most one no stream outgrows the streams it is mixed from |
| StreamMix.AgreeingStreams | vllm/_tilelang_ops.py:516-523 | streams that agree come out scaled by the sum of the column that feeds them |
| StreamMix.BalancedMix | vllm/_tilelang_ops.py:116-148 | both hold for every matrix the Sinkhorn section leaves, for every input and repeat count; without eps agreeing streams come out unchanged |
| StreamMix.ReadsPosition | vllm/_tilelang_ops.py:437-440 | a single weight reads exactly its position of its stream into its column |
| StreamMix.LinearInWeights | vllm/_tilelang_ops.py:437-440 | the projections are linear in the weights |
| StreamMix.MeanOfConstant | vllm/_tilelang_ops.py:88-91 | the mean square of streams that hold one value everywhere is its square |
| StreamMix.MeanOfScaled | vllm/_tilelang_ops.py:88-91 | and it scales with the square of the streams |
| Sinkhorn.BalancedBounded | vllm/_tilelang_ops.py:116-144 | for every size, input and repeat count all entries are positive and column sums are one without eps and strictly between zero and one with it |
| Sinkhorn.NormColSum | vllm/_tilelang_ops.py:132-133 | a normalised column sums to its old sum over that sum plus eps |
| Sinkhorn.AlternateBounded | vllm/_tilelang_ops.py:135-144 | every alternation keeps positivity and the column bound |
| Sinkhorn.NormRowSum | vllm/_tilelang_ops.py:137-139 | a normalised row sums to its old sum over that sum plus eps |
| Sinkhorn.SoftmaxRowSum | vllm/_tilelang_ops.py:121-128 | each row of the softmax sums to one before eps is added to its entries |
| Sinkhorn.BalancedRescales | vllm/_tilelang_ops.py:116-144 | for every eps and repeat count the result differs from the softmax by one factor per row and one per column: every cross ratio is kept |
| Sinkhorn.AlternationFixedIff | vllm/_tilelang_ops.py:135-144 | without eps an alternation leaves a positive matrix alone if and only if its rows and columns sum to one |
| Sinkhorn.AlternateContracts | vllm/_tilelang_ops.py:135-144 | without eps no number of repeats moves the row sums further apart |
| Sinkhorn.OneMoreRepeat | vllm/_tilelang_ops.py:135-144 | one more repeat changes the result if and only if some row does not sum to one yet, and only brings the row sums closer together |
| Sinkhorn.OneBalance | vllm/_tilelang_ops.py:116-144 | two positive matrices with all sums one that differ by row and column factors only are the same |
| Sinkhorn.SettledIsTheBalance | vllm/_tilelang_ops.py:116-144 | so a result that one more repeat would not change is the only such rescaling of the softmax, whatever repeat count reached it |
| Sinkhorn.ShiftCancels | vllm/_tilelang_ops.py:121-128 | subtracting the row maximum does not change the softmax |
| Sinkhorn.RowMaxes | vllm/_tilelang_ops.py:122-123 | the reduction finds the largest entry of every row |
| Sinkhorn.SoftmaxRows | vllm/_tilelang_ops.py:121-128 | in place, the softmax plus eps, with no division by zero |
| Sinkhorn.NormaliseRows | vllm/_tilelang_ops.py:137-139 | in place, each row over its sum plus eps, with no division by zero; row sums are then one without eps and strictly between zero and one with it |
| Sinkhorn.NormaliseCols | vllm/_tilelang_ops.py:130-133 | in place, each column over its sum plus eps, with no division by zero; column sums are then one without eps and strictly between zero and one with it |
| Sinkhorn.Balance | vllm/_tilelang_ops.py:116-148 | the whole section in place leaves the specified matrix, positive, with bounded columns, and the softmax rescaled by rows and columns only |
| BuildSweep.SortedEvents | tools/report_build_time_ninja.py:212-224 | the event list holds every start and stop once, by time, starts before stops |
| BuildSweep.Sweep | tools/report_build_time_ninja.py:223-256 | the sweep fails only on no tasks or a task that stops before it starts; otherwise each weight is the task's share of every moment it ran and the total is the busy time |
| BuildSweep.SharesConserve | tools/report_build_time_ninja.py:238-255 | weighted durations add up exactly to the time at least one task was running |
| BuildSweep.ShareAtMostDuration | tools/report_build_time_ninja.py:74-89 | no task is charged more than it took |
| BuildSweep.FullShareIff | tools/report_build_time_ninja.py:74-89 | a task is charged its whole duration if and only if it never shares a moment with another |
| BuildSweep.ShareIsElapsed | tools/report_build_time_ninja.py:239-251 | the running total's growth between a task's start and stop is its share |
| BuildSweep.BusyWithinSpan | tools/report_build_time_ninja.py:220-256 | busy time never exceeds the span and equals it when no moment was idle |
| BuildSweep.Span | tools/report_build_time_ninja.py:209-220 | the loop finds the earliest start if and only if no start is negative or the last one is the earliest, and the latest end if and only if some end is not negative |
| BuildSweep.SpanIsTimeline | tools/report_build_time_ninja.py:209-233 | that span is the distance between the first and last event |
| NinjaLog.ReadTargets | tools/report_build_time_ninja.py:104-148 | other log versions are refused; otherwise the result is the grouping of the last stretch of the greedy segmentation of the well-formed lines, or of all of them on request |
| NinjaLog.GreedyCutsEqual | tools/report_build_time_ninja.py:124-143 | the greedy segmentation into builds is unique, so the last build means one thing |
| NinjaLog.BelongsIff | tools/report_build_time_ninja.py:124-143 | the reader's two tests hold if and only if the entry still fits one build: ends never go back and a command keeps its times |
| NinjaLog.GroupOnePerCommand | tools/report_build_time_ninja.py:133-148 | one target per command |
| NinjaLog.GroupNames | tools/report_build_time_ninja.py:144-148 | each target holds exactly its command's names, in order: none lost, none repeated |
| NinjaLog.GroupTimes | tools/report_build_time_ninja.py:133-146 | within one build every entry carries its target's start and end |
| NinjaLog.GroupInOrder | tools/report_build_time_ninja.py:133-148 | targets are listed in the order in which their commands first appear, with the times of the first entry, whatever the entries |
| NinjaLog.SkipsMalformed | tools/report_build_time_ninja.py:114-119 | malformed lines are skipped wherever they stand and every record keeps its place |
| NinjaLog.PairsDecide | tools/report_build_time_ninja.py:124-143 | whether lines are of one build is decided two at a time |
| NinjaLog.TwoLines | tools/report_build_time_ninja.py:124-143 | two lines are of one build exactly when the end does not go back and a repeated command kept its times |
| ChunkSizes.ChunkSetting | csrc/cumem_allocator.cpp:24-42 | the configured chunk size in bytes, or the default when the variable is unset, unreadable, zero or too large; always positive |
| ChunkSizes.RoundUpIff | csrc/cumem_allocator.cpp:319 | rounding up to the granularity is right if and only if the sum does not wrap, and zero when it wraps |
| ChunkSizes.FillChunks | csrc/cumem_allocator.cpp:354-369 | the loop fills in the chunk sizes as the machine computes them |
| ChunkSizes.ChunksTile | csrc/cumem_allocator.cpp:344-369 | without wrap-around the chunks are positive multiples of the granularity that add up to the reservation |
| ChunkSizes.FewestChunks | csrc/cumem_allocator.cpp:344-369 | no chunk exceeds the chunk size, and no way to cut the reservation into such chunks needs fewer |
| ChunkSizes.ChunkingIff | csrc/cumem_allocator.cpp:319-369 | the whole computation tiles the rounded-up request if and only if none of its three sums wraps |
| ChunkSizes.LargestSettingWraps | csrc/cumem_allocator.cpp:24-42 | the largest accepted setting under a two-megabyte granularity makes the chunk size zero, for every request |
| ChunkSizes.OneChunkPerByte | csrc/cumem_allocator.cpp:160-179 | every byte of the reservation lies in one chunk and no other |
| CumemAllocator.Allocator.CreateAll | csrc/cumem_allocator.cpp:150-158 | each chunk is created with its own size, the reported error is that of the first failing call, and a failed creation leaves only handles whose clean-up failed; with an error pending on entry the first handle created is dropped |
| CumemAllocator.Allocator.MapAll | csrc/cumem_allocator.cpp:160-179 | a failed mapping unmaps and releases everything except what a failing clean-up call leaves |
| CumemAllocator.Allocator.CreateAndMap | csrc/cumem_allocator.cpp:95-180 | starting without a pending error, it fails if and only if a driver call does, with that call's error; success maps all chunks side by side and any failure leaves the driver as it was but for clean-up calls that failed; with a pending error exactly the first handle created leaks |
| CumemAllocator.Allocator.UnmapAndRelease | csrc/cumem_allocator.cpp:216-238 | every chunk is unmapped at its own offset and every handle released whatever fails, only failing calls leave anything behind, and the recorded error is the first |
| CumemAllocator.Allocator.Allocate | csrc/cumem_allocator.cpp:299-420 | a pending error refuses the request untouched; otherwise it fails exactly when the query or a driver call does, with that error; a chunk size that wraps to zero traps before the driver is asked, exactly when setting and granularity overflow; otherwise the request tiles the reserved range with mapped chunks or is rolled back |
| CumemAllocator.Allocator.Cycle | csrc/cumem_allocator.cpp:95-238 | creating and releasing without an error leaves the driver as it was |
| CumemAllocator.Allocator.Cycles | csrc/cumem_allocator.cpp:95-238 | so does any number of such cycles |
| CumemAllocator.PendingErrorLeaks | csrc/cumem_allocator.cpp:150-158 | with an error pending and a driver that grants the first chunk, creation reports a failure and the granted handle stays live |
| CumemAllocator.FirstErrorMeaning | csrc/cumem_allocator.cpp:217-237 | the recorded status belongs to a failing call with only successes before it |
| CumemAllocator.UnmapEach | csrc/cumem_allocator.cpp:216-225 | the loop attempts every chunk at the right offset and removes exactly the ranges whose call succeeded |
| CumemAllocator.ReleaseEach | csrc/cumem_allocator.cpp:227-233 | the loop attempts every handle and releases exactly those whose call succeeded |
| ModelInspection.SignatureInjective | vllm/model_inspection.py:36-41 | layers with equal signature strings are the same tree, down to every name and info string, if no name holds a dot or a colon and no info a newline |
| ModelInspection.SignatureInjectiveIff | vllm/model_inspection.py:36-41 | signatures tell all trees over a set of characters apart if and only if names may hold neither a colon nor a dot; every other character, a newline included, is harmless |
| ModelInspection.PreorderInjective | vllm/model_inspection.py:38-40 | already equal lists of paths and infos force equal trees |
| ModelInspection.ColonInName | vllm/model_inspection.py:40 | wherever a name holds a colon, a different layer has the same signature: the rest of the name could start the info |
| ModelInspection.DotInName | vllm/model_inspection.py:38-40 | so it is with a dot: a sibling named like a path lists like the child on that path |
| ModelInspection.IndexRanges | vllm/model_inspection.py:44-58 | the printed ranges are the runs of successive indices: they expand to the sorted indices, none is empty, no two could be one, and they number one more than the breaks; an empty list is refused |
| ModelInspection.FewestRanges | vllm/model_inspection.py:50-57 | no other list of ranges for the same indices is shorter |
| ModelInspection.RangesTextInjective | vllm/model_inspection.py:54-58 | the printed text determines the ranges |
| ModelInspection.TextDeterminesIndices | vllm/model_inspection.py:44-58 | two index lists printed alike are equal up to order |
| ModelInspection.Separate | vllm/model_inspection.py:92-99 | the loop splits the children into those whose names read as integers and the others, in order, losing none |
| ModelInspection.GroupLayers | vllm/model_inspection.py:103-107 | the dictionary holds, per signature in order of appearance, exactly the layers that have it |
| ModelInspection.GroupsPartition | vllm/model_inspection.py:103-107 | the groups together hold each numbered child exactly once |
| ModelInspection.LayerInOneGroup | vllm/model_inspection.py:103-113 | every layer is in one group only, and every layer there is the same tree as the one printed for it |
| ModelInspection.HeadingDetermines | vllm/model_inspection.py:111-123 | the printed ranges and tree of a group determine its layers up to order |
| ModelInspection.CollapseLossless | vllm/model_inspection.py:101-124 | two modules whose groups of numbered children print the same ranges over the same trees have the same numbered children, index by index, whatever order the groups come in |
| ModelText.RenderInjective | vllm/model_inspection.py:78-131 | indentation alone says where a module's lines end, so a list of lines has one reading |
| ModelText.LinesRendered | vllm/model_inspection.py:82-131 | the recursive formatting, with its stripped and relabelled first lines, lays out exactly that outline |
| ModelText.GroupsAscend | vllm/model_inspection.py:109-110 | groups are printed by their first index |
| ModelText.CountIsMembers | vllm/model_inspection.py:115-121 | the number printed in front of a group reads as the number of its members, and a single one has none |
| ModelText.DocumentedLines | vllm/model_inspection.py:66-74 | the layout of the documented example, line by line |
| ModelText.PageInjective | vllm/model_inspection.py:111-128 | labels, counts and infos of the lines determine names, index ranges and infos at every level |
| ModelText.PageTextInjective | vllm/model_inspection.py:134-136 | the joined text determines the collapsed module |
| ModelText.CollapseInjective | vllm/model_inspection.py:92-128 | the collapsed module determines the tree, names and every member of every group included |
| ModelText.PrintedTextDetermines | vllm/model_inspection.py:61-136 | two models that print the same text are the same tree, if infos are single lines, no name contains a dot or a colon or is the text printed for a group's indices, and numbered children come first in order |
| ModelText.PrintedTextIff | vllm/model_inspection.py:61-136 | over every set of names without dots, colons and line ends that are not numbers, the printed text tells all ordinary trees with those names apart if and only if no name is the text printed for a group's indices |
| ModelText.InterleavingNotPrinted | vllm/model_inspection.py:92-128 | how numbered and named children are interleaved is not printed |
| ModelText.ClosingInName | vllm/model_inspection.py:90 | a closing parenthesis, colon and blank in a name lets it run on into the info, for every name and info |
| ModelText.NameLikeLabel | vllm/model_inspection.py:117-121 | for every list of more than one index, a child named like its text prints like the group |
| PromptQueue.StepInv | benchmarks/benchmark_hidden_state_extraction.py:143-177 | every step of every client keeps: prompts leave first, each is recorded or in work once, and one sentinel is gone per stopped client |
| PromptQueue.NobodyStarves | benchmarks/benchmark_hidden_state_extraction.py:143-148 | in no reachable state does a client wait on an empty queue |
| PromptQueue.RecordedOnce | benchmarks/benchmark_hidden_state_extraction.py:143-177 | at no point is a prompt recorded twice, and no sentinel is taken while a prompt is queued |
| PromptQueue.GatherComplete | benchmarks/benchmark_hidden_state_extraction.py:241-258 | when all clients have stopped every prompt is recorded exactly once and every client took one sentinel |
| PromptQueue.RunLength | benchmarks/benchmark_hidden_state_extraction.py:143-177 | every run is finite, and takes two steps a prompt and one a client if and only if it gathers |
| PromptQueue.Pool.Advance | benchmarks/benchmark_hidden_state_extraction.py:143-177 | a client between two suspension points does exactly one step of the protocol |
| PromptQueue.Pool.RunToGather | benchmarks/benchmark_hidden_state_extraction.py:240-258 | under any scheduling the run ends with all clients stopped and each prompt recorded once |
| BadWords.Processor.Call | vllm/logits_process.py:56-88 | out-of-range ids and empty words fail as in the original; otherwise each logit is unchanged unless its token completes a bad word, when a finite one becomes minus infinity |
| BadWords.Processor.InitWordBias | vllm/logits_process.py:89-104 | the word bias is made once, when all ids are in range, with minus infinity exactly on one-token words |
| BadWords.Processor.CheckBounds | vllm/logits_process.py:106-112 | collects every out-of-range id of every word in order |
| BadWords.Processor.LastTokenBias | vllm/logits_process.py:64-84 | minus infinity exactly on tokens that complete a longer word after the past tokens |
| BadWords.InvalidMeaning | vllm/logits_process.py:106-121 | no id is reported if and only if all are in range |
| BadWords.NeverEmitted | vllm/logits_process.py:56-88 | if every emitted token had a processed logit above minus infinity, no bad word ends in the generated part, whatever came before |
| BadWords.RunSafe | vllm/logits_process.py:56-88 | a run from nothing never contains a bad word |
| BadWords.BannedIffOccurs | vllm/logits_process.py:64-84 | a token is suppressed if and only if some bad word would end with it |
| BadWords.InvalidExact | vllm/logits_process.py:106-112 | the refusal lists every id outside the vocabulary as often as the words have it, and no other |
| Int8Quant.ErrorBound | vllm/_xpu_ops.py:384-401 | every quantised value is in range and dequantises to within half a step of its input, in both modes and despite clamping |
| Int8Quant.BestInRange | vllm/_xpu_ops.py:397-401 | no integer in range dequantises closer |
| Int8Quant.PositionBounds | vllm/_xpu_ops.py:384-401 | no input lies more than half a step outside the integer range |
| Int8Quant.ScaleIsLeast | vllm/_xpu_ops.py:388-394 | the scale is the least one of at least the minimum under which the row fits the grid |
| Int8Quant.ErrorByExtremes | vllm/_xpu_ops.py:384-401 | no input comes back further off than half a step of any scale that fits the row's extremes |
| Int8Quant.WholeGridUsed | vllm/_xpu_ops.py:388-394 | unless the row is flat its spread is exactly the whole grid |
| Int8Quant.LargestLevel | vllm/_xpu_ops.py:389-401 | symmetric: an input of the largest magnitude becomes the largest level or its negative |
| Int8Quant.GridFromTheLeast | vllm/_xpu_ops.py:394-401 | asymmetric: the least input becomes level zero, the greatest lies the whole grid above it and becomes the top level or, at a tie, the one below |
| Int8Quant.LevelsFillTheBits | vllm/_xpu_ops.py:382-383 | the levels are all the integers of that many bits |
| Int8Quant.ByteIff | vllm/_xpu_ops.py:401 | the byte the values are cast to holds all levels if and only if there are at most eight bits |
| Int8Quant.ZeroPointFitsIff | vllm/_xpu_ops.py:394-395 | the zero point fits 32 bits if and only if the smallest input over the scale lies in a stated window |
| Int8Quant.ZeroPointOverflows | vllm/_xpu_ops.py:394-395 | a constant row of 50000 falls outside it |
| Int8Quant.Round | vllm/_xpu_ops.py:395-401 | rounds to the nearest integer, ties to even |
| FlatLogprobs.Flat.constructor | vllm/logprobs.py:51-61 | a new container stands for the empty list |
| FlatLogprobs.Flat.Append | vllm/logprobs.py:63-72 | appends the dictionary, or an empty one for None, to the list the container stands for |
| FlatLogprobs.Flat.AddCell | vllm/logprobs.py:67-71 | one entry more at the end of the value lists |
| FlatLogprobs.Flat.AppendFast | vllm/logprobs.py:74-93 | appends the dictionary that the zipped columns build, repeated tokens and short columns included |
| FlatLogprobs.Flat.Extend | vllm/logprobs.py:95-98 | appends all positions in order |
| FlatLogprobs.Flat.GetItem | vllm/logprobs.py:110-120 | reads the list's dictionary at a position, negative ones from the end, and fails out of range |
| FlatLogprobs.Flat.GetSlice | vllm/logprobs.py:121-133 | a slice is a container of its own standing for the list's slice; an empty one fails |
| FlatLogprobs.Flat.Iterate | vllm/logprobs.py:146-152 | yields the list |
| FlatLogprobs.Flat.Len | vllm/logprobs.py:100-102 | the length of the list |
| FlatLogprobs.Flat.AppendNext | vllm/logprobs.py:175-206 | the flat branch grows the list by exactly the dictionary the other branch appends, for every rank and count, minus one included |
| FlatLogprobs.ContentsAppend | vllm/logprobs.py:63-93 | a position added at the end leaves the others alone |
| FlatLogprobs.ContentsPick | vllm/logprobs.py:122-133 | cutting the columns and shifting the indices picks the same dictionaries |
| FlatLogprobs.PositionsMeaning | vllm/logprobs.py:122-128 | a slice selects exactly every step-th position from its start |
| FlatLogprobs.FromCellsSame | vllm/logprobs.py:67-71 | a dictionary's own items build it again, in order |
| FlatLogprobs.LastWins | vllm/logprobs.py:112-120 | of repeated tokens the last value counts |
| FlatLogprobs.FromCellsInOrder | vllm/logprobs.py:112-120 | a dictionary read back has every key once, in the order of first appearance |
| FlatLogprobs.ZipOfColumns | vllm/logprobs.py:74-93 | the columns of a dictionary build it again |
| FlatLogprobs.NextDictRanks | vllm/logprobs.py:175-206 | the next position has the sampled token with its rank and behind it as many candidates as asked for, or all, ranked from one up |
| FlatLogprobs.SliceStartsAtItem | vllm/logprobs.py:121-133 | a slice from an index starts with the item of that index, negative ones counted from the end |
| FlatLogprobs.SliceStopsBeforeItem | vllm/logprobs.py:121-133 | and a slice up to an index ends before it |
| RequestOutput.Request.Add | vllm/outputs.py:145-173 | merging one output leaves exactly the specified completions, flags and parameters, and stops with the work done so far when log probabilities arrive for a completion without any |
| RequestOutput.Request.AddOne | vllm/outputs.py:152-173 | the inner search merges into, replaces, or appends as specified |
| RequestOutput.Request.AddEach | vllm/outputs.py:145-173 | a stream of outputs merges its completions in order, finished is the disjunction, the parameters are the last |
| RequestOutput.StreamAggregated | vllm/outputs.py:152-170 | from unique indices, aggregation leaves indices in order of first arrival and at each the texts, tokens and log probabilities of all its completions in order |
| RequestOutput.StreamAggregatesIff | vllm/outputs.py:160-162 | aggregation goes through if and only if no completion that starts without log probabilities is sent any |
| RequestOutput.LateLogprobsRefused | vllm/outputs.py:160-162 | a completion that starts without log probabilities and is sent some later fails the assertion |
| RequestOutput.StoppedHalfWay | vllm/outputs.py:152-163 | a stream that is refused stops at the first completion with late log probabilities, whose text and tokens are merged already and nothing else of it |
| RequestOutput.StreamReplaced | vllm/outputs.py:168-173 | without aggregation nothing is refused and each index holds its latest completion |
| SpinWait.NoLostWakeup | csrc/spinloop.cpp:126-152 | in every interleaving a waiter asleep although the condition holds was overtaken by a store after it armed the monitor, and the monitor has seen it |
| SpinWait.PromptTimeout | csrc/spinloop.cpp:107-123 | a timeout is reported only past the deadline, and past it the loop polls at most sixteen more times |
| SpinWait.ReturnsForAReason | csrc/spinloop.cpp:89-150 | in every run true is returned only after a poll that found the condition true, a timeout only after a look at the clock past the deadline, an error only after a call that raised |
| SpinWait.TrueIsReported | csrc/spinloop.cpp:89-168 | a condition that holds and is left alone is reported within four steps of the waiter, two if it sleeps |
| TokenSplit.CuTokensAreSums | vllm/forward_context.py:120-125 | the running sums are those of the separately computed shares, entry by entry |
| TokenSplit.SharesAt | vllm/forward_context.py:61-69 | each sequence-parallel rank gets the share that covers its data-parallel rank's tokens with less than one spare token per rank |
| TokenSplit.SharesCover | vllm/forward_context.py:61-69 | together the shares cover all tokens with less than one spare per sequence-parallel rank |

## Left out

- Block summaries, block selection and the attention kernels of the cache: not part of the tier manager's state.
- Asynchronous copies and CUDA streams in the tier manager: every copy is complete when its operation returns, so transfer overlap and the transient table states between begin and complete are not modelled.
- Statistics, selection recording and the size limits of the residency table.
- TierManager.Layer.PrefetchTopIds: the copies are made at once instead of on a stream, and nothing is skipped for a missing stream pool.
- TierManager.Layer.EnsureResident: covers the synchronous path only; the asynchronous variant issues the same copies on another stream.
- TierTransparency.StepRefines: speaks of operations that return, and of appends to a block that is in the arena; TierOutcome.StepOutcome says exactly when an operation returns, TierRaise.RaiseLosesIff what a raise leaves while one sequence uses the layer, and TierLive.AppendKeepsRowsIff when an append to an evicted block is transparent.
- TierTransparency.RunRefines: the same, for runs in which every operation returns; TierDecodeLoop.DecodeLoopNeverRaises and TierService.RunNeverRaises start from a new layer and assume no success.
- TierSuccess.StepOkIff: one sequence at a time, in terms of what is stored; TierOutcome.StepOutcome covers any number of sequences in terms of the layer's state.
- TierService.RunNeverRaises: covers requests of any size and prefetches of any kind, so a live block may be evicted; an append must then find its block in the arena, which TierLive.EvictedLiveBlockLosesRows shows to be needed. The decode loop, which keeps its live block, needs no such condition.
- TierDecodeLoop.DecodeLoopNeverRaises: one sequence at a time; guesses must be of stored blocks and spare the live block, which TierGuesses.GuessesGoWellIff shows to be needed, so a guess into a layer not handed over yet and one that loses the live block are outside; under the mixture ordering every request must leave room as WorkingSet.NeededNeverEvictedIff requires.
- TierGuesses.CautiousLoopNeverRaises: for plain LRU, untrusted guesses and an arena of more than one slot; the other settings are covered by TierDecodeLoop.DecodeLoopNeverRaises, whose condition on guesses looks at the layer.
- TierHandOver.HandOverByHistory: for runs in which every operation returns, as are TierTokens.TokensAreHistory, TierTokens.SelectedTokensReadBack and TierRecency.EvictsLeastRecent; TierHandOver.HandOverEveryStep and TierTokens.LoopTokensReadBack are about the decode loop and assume no success.
- PartitionSignatures.GetSignatures: ordered sets are plain sets, so the order of names in a signature is not modelled, nor are symbol inputs and constant lookups.
- MemoryPlan.PlanReuse: what planning a line does with its state is abstract; only which state it gets is modelled.
- Floating-point and bfloat16 rounding in the kernels and the quantiser: arithmetic is over the reals.
- SplitKernel.FusedKernel: one token is modelled, blocks and warps run one after the other, and thread counts are whole warps; the pre-mix half of the next kernel is not modelled.
- SplitKernel.FusedMixes: stated for the sizes under which FusedIsPlainIff, ResidualStoredIff and ColumnsDoneIff hold, because those lemmas show it fails otherwise.
- Sinkhorn.SettledIsTheBalance: what the repeats tend to, not how fast; with a positive eps column sums stay below one (Sinkhorn.BalancedBounded), so it does not apply.
- NinjaLog.ReadTargets: lines arrive already split and parsed, so a field that is not a number is not modelled.
- The printed summaries, extensions and step types of the build report.
- CumemAllocator.Allocator.CreateAndMap: stops before access rights are set, whose failure is not rolled back by the original either.
- CumemAllocator.Allocator.Allocate: starts once the address range is reserved; the Python callbacks, host allocation failures and the CUDA single-handle path are not modelled.
- ModelInspection.Separate: the reading of a name as an integer is a parameter, so that two names may read as the same index.
- ModelInspection.CollapseLossless: headings carry the tree itself; the lines under them are the subject of ModelText. Modules shared between two parents are not modelled.
- ModelText.LinesRendered: an info is taken to start with no white space, and only blanks are stripped.
- ModelText.ClosingInName: stated on the collapsed form of a module, as is ModelText.NameLikeLabel; ModelText.PrintedTextIff is about the trees themselves.
- ModelText.PrintedTextIff: names with a dot or a colon are excluded, because ModelInspection.DotInName and ModelInspection.ColonInName already show them unsafe, and names that read as numbers are indices.
- PromptQueue.Pool.RunToGather: an engine call that raises is not modelled; work on a prompt always ends.
- BadWords.Processor.Call: later calls must pass logits of the vocabulary size the bias was made for.
- FlatLogprobs.Flat.GetSlice: positive steps only, because shifting by the first selected start is meaningless for a negative step.
- FlatLogprobs.NextDictRanks: for distinct tokens; for repeated ones FlatLogprobs.LastWins and FlatLogprobs.FromCellsInOrder say which value counts and where it stands.
- RequestOutput.Request.Add: completions are values, so that an appended completion stays shared with the output it came from is not modelled.
- SpinWait.NoLostWakeup: the condition changes only through a store to the monitored buffer; a callback that reads anything else is not modelled.
- CPU feature detection and callback reference counting in the spin wait: the monitor and the clock are abstract steps.
- HTTP clients, command lines, benchmark reports, setup scripts and thin wrappers around kernels: they would only add easy members.
