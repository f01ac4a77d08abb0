# Layerstorm tooling: a verified model

A Dafny model of the parts of the repository whose correctness is not visible in
any single function, with proofs that hold for every input, every run or every
reachable state. `dafny verify dfyconfig.toml` checks all of it.

| files | what they model |
|---|---|
| `arena_protocol`, `little_endian` | the arena holder's messages, byte by byte |
| `fd_kernel` | one process's descriptor table: the kernel, the open set, and a log of every action on it |
| `holder_spec`, `holder_messages`, `holder_runs`, `last_write` | the holder as a transition function, its answers from the bytes of a message alone, and what holds over all its runs |
| `arena_holder`, `arena_ctl` | the holder's handler and poll loop in place over that table; the operator tool talking to it while other clients interfere |
| `kv_sharding`, `admission`, `demand_by_rank`, `search_trust`, `untiered_fit`, `fit_ledger`, `reduce_loop`, `reduce_fixpoint` | page counts under sharding, a request's demand counted rank by rank from its tokens, the admissible-context search and when it can be trusted, the untiered fit and its numbers one by one, the loop that lowers the ask and when it reaches a fixed point |
| `expert_slots`, `fit_search`, `tp_degree` | the expert slot allocator, the memoised lattice search, the TP degree |
| `gguf_format`, `gguf_parse`, `gguf_roundtrip`, `gguf_truncation`, `gguf_bytes`, `gguf_reader` | the GGUF header format (GGUF specification, section "File Structure"), its two parsers as functions, their agreement and round trips, which truncated files they accept, the layout in plain numbers, and the readers over a file cursor |
| `pinned_region`, `pinned_tp`, `pinned_attention`, `pinned_layout`, `pinned_slots` | the pinned VRAM region of the glm5_next architecture in its exact and its bound arm, and as tables of its slots and components |
| `recipe_tree`, `recipe_diff`, `recipe_leaves`, `recipe_compare`, `recipe_lengths` | the recipe diff as an edit script, which rows it emits and in which order, its classification pass, and how many rows a changed list length makes |
| `kda_math`, `kda_golden`, `kda_recheck`, `kda_entries`, `kda_resume`, `kda_carry`, `kda_scan`, `kda_bridge` | the KDA recurrence: lockstep run against per-head recheck, against one scalar expression an entry, and against the reference layer, continuing from what a run keeps, and the carry-state split |
| `drift_segment` | cutting a gating dump into requests |
| `int_math`, `sequences`, `options` | shared arithmetic, the last element, and the option type |

Code that works by changing things in place is a class or a method with loops,
proved against a function; the theorems are lemmas about that function. Where an
outcome depends on the kernel or a peer (which connection is ready, what it
says, which number an accept yields, whether a message gets through) the method
chooses arbitrarily or takes it as an argument, so its contract covers every case.
Each operation is also described apart from its own definition, by what its result
is: counts for closed forms, bytes for parsed messages, tables for sums, scalar
expressions for vector code.

## What the proofs found

- The admissible-context search starts from an upper end that grows with the
  pool. It is high enough for every pool exactly when a request's demand grows at
  least as fast (`SearchTrust.TrustedForEveryPool`): without an indexer, when there
  are no more shards than KV layers. Otherwise `SlowDemandDefeats` names a pool for
  which the answer is short.
- The arena holder closes or stores every descriptor it receives, but for one
  kind of message: the receive helper returns a zero length before it looks at
  the control messages, so descriptors that ride an empty datagram stay open and
  unknown. What is open is what the holder owns, if and only if no such datagram
  came (`HolderRuns.OwnershipExactly`); `EmptyDatagramLeaks` is a run that leaks.
- With VRAM to spare, the untiered fit refuses several concurrent requests
  exactly when the fifteen percent it reserves for speculation outweighs the
  prefix cache's spare state slots (`UntieredFit.ConcAskRefusedExactly`).
- The reduce loop is described as reaching a fixed point. For a single request
  with VRAM to spare, a loop with a round for each page of the ask above the floor
  does, if and only if the spare state covers the split at the floor
  (`ReduceFixpoint.SettlesExactly`); else no number of rounds helps, and it refuses
  or ends above every ceiling reported for it (`UncoveredNeverSettles`,
  `ReduceLoop.NeverAdmissible`). The loop has four rounds, so a covered floor alone
  is not enough: the asks that settle are those up to a threshold (`SettlesBelow`),
  among them all that end at most four pages after the last whole page of a covered
  length (`SettlesNear`). In `FourRoundsFallShort` lengths up to 13 are covered, the
  asks up to 17 settle, and 18 and all above are left over their ceilings. Without
  mapped state the floor is uncovered once its KV reaches seven bytes;
  `PlainNeverSettles` is one such model.
- `expert_targets` says hosts are filled up to capacity. Its two rounds fill them
  to one common level (`ExpertSlots.GrantLevels`), which may leave an indivisible
  rest for the TP GPUs, and an undivided remainder there is refused however much
  room is left (`RefusedExactly`, `RefusesWithRoom`).
- A read past the end of a GGUF file is short, and only numbers notice. Which
  truncations of a header go unnoticed is stated exactly, for building and for
  skipping (`GgufTruncation.TruncatedMetadata`, `TruncatedHeader`): the end of the
  last string, and when skipping also the last scalar or scalar array.
  `read_tensor_infos` of a header with a tensor in it notices every one. The
  tokenizer skip loop raises on nested arrays that the format allows
  (`GgufRoundTrip.MetadataRoundTrip` states exactly when).
- The claim that the per-rank pinned region only shrinks as TP grows is true of
  the BF16 bound (`PinnedTp.BoundShrinks`). With checkpoint-exact slots the region
  grows exactly when the o_proj slots gain more than the rest saves
  (`RegionGrowsExactly`). Models with given attention, of any mix of layers, never
  grow if and only if their attention slots together do not
  (`PinnedAttention.AttentionDecides`), for a linear layer one inequality
  (`LinearGrowsExactly`); MLA models with given o_proj slots, if and only if those
  do not (`PinnedTp.NeverGrowsExactly`). `RegionMayGrow` is a region that grows by a
  megabyte from one rank to two.
- `compare.py`'s module docstring says an unjustified shape change reads as one
  unexplained row. It never does: every length row has one one-sided element row
  per entry of difference (`RecipeLengths.LengthRowsHaveElements`), and all take its
  class, so an unexplained one reads as at least two (`NeverOneUnexplained`,
  `OneEntryMore`). The verdict is still decided by other rows alone
  (`RecipeCompare.ElementsNeverDecide`).

## Model

| member | source | states |
|---|---|---|
| ArenaProtocol.HeaderRoundTrip | src/core/memory/arena_ipc_protocol.h:107-112 | a header's sixteen bytes parse back to it, whatever payload follows |
| ArenaProtocol.U32RoundTrip | src/core/memory/arena_ipc_protocol.h:107-112 | a 32-bit field reads back the value written, at any offset of any message |
| ArenaProtocol.WipeMessage | tools/arena_ctl.cpp:157-167 | the operator's wipe is one well-headed message of exactly header plus request size; its reason reads back as given and its detail bytes are the text given, cut to the field or filled with zeros |
| FdKernel.ClosedOncePerOpening | tools/arena_holder.cpp:216-361 | in a permitted action log every descriptor number has been closed as often as opened, or once less while it is open |
| FdKernel.ClosingIsLegal | tools/arena_holder.cpp:221-221 | closing distinct open descriptors one by one is permitted throughout and leaves exactly the others open |
| FdKernel.OpeningIsLegal | src/core/memory/arena_ipc_protocol.h:188-213 | installing passed descriptors under distinct free numbers is permitted and adds exactly those |
| FdKernel.Kernel.CloseAll | tools/arena_holder.cpp:363-365 | closes each of the given descriptors once and touches no other |
| FdKernel.Kernel.Recv | src/core/memory/arena_ipc_protocol.h:188-213 | a receive opens exactly the descriptors the datagram carries, an empty datagram's too |
| FdKernel.Kernel.FreeNumbers | src/core/memory/arena_ipc_protocol.h:188-213 | the numbers a receive yields are as many as were passed, distinct, and were not open before |
| HolderRuns.StepSafe | tools/arena_holder.cpp:216-361 | one accept or one message of a live connection keeps the bookkeeping invariant, performs only permitted actions, and leaves open exactly what the holder then owns and the strays: the descriptors of empty datagrams |
| HolderMessages.StoreExactly | tools/arena_holder.cpp:261-285 | from the bytes: a store is accepted exactly when the attached connection sends n <= 64 descriptions of 16 bytes, says so, and passes n + 1 descriptors; then these and those bytes are the store, else nothing changes and the answer is an error |
| HolderMessages.StoreGoesThrough | tools/arena_holder.cpp:264-284 | an honest store of any number of segments up to 64 goes through |
| HolderMessages.WipeExactly | tools/arena_holder.cpp:286-324 | from the bytes: a wipe is honored exactly when the attached connection sends one 260-byte request with reason 1 or 2; then the store is emptied, else it stays |
| HolderMessages.AttachExactly | tools/arena_holder.cpp:231-260 | busy exactly when someone else is attached, else granted with whatever is stored |
| HolderMessages.OtherKindExactly | tools/arena_holder.cpp:325-331 | a detach or an unknown kind ends the connection without an answer |
| HolderMessages.ForeignExactly | tools/arena_holder.cpp:222-229 | so does anything too short or without the protocol's first eight bytes |
| HolderMessages.MessageParses | src/core/memory/arena_ipc_protocol.h:107-112 | magic, version, kind and length stand in the first sixteen bytes, low byte first, and parse back |
| HolderMessages.EveryMessage | src/core/memory/arena_ipc_protocol.h:107-112 | every datagram that starts with the eight bytes is such a message |
| HolderMessages.AcceptExactly | tools/arena_holder.cpp:344-350 | sixteen connections are served at a time, one more is closed unserved |
| HolderMessages.WipeBytes | tools/arena_ctl.cpp:157-167 | the operator's request byte by byte |
| HolderMessages.AcceptedExactly | tools/arena_holder.cpp:264-268 | the stores that count as accepted over a run are those of StoreExactly |
| HolderMessages.HonoredExactly | tools/arena_holder.cpp:288-315 | the wipes that count as honored are those of WipeExactly |
| HolderRuns.Ownership | tools/arena_holder.cpp:203-361 | after every run the open numbers are the listening socket, the connections, the stored descriptors and the strays, without overlap, and nothing unopened was used or closed |
| HolderRuns.OwnershipExactly | src/core/memory/arena_ipc_protocol.h:199-200 | after a run the open numbers are exactly what the holder owns, if and only if no empty datagram brought descriptors |
| HolderRuns.StraysExactly | src/core/memory/arena_ipc_protocol.h:199-211 | there are strays exactly when some empty datagram of the run brought a descriptor |
| HolderRuns.EmptyDatagramLeaks | src/core/memory/arena_ipc_protocol.h:199-200 | a run of two events after which the holder owns only its socket but one more descriptor is open |
| HolderRuns.EveryFdClosedOnce | tools/arena_holder.cpp:203-361 | over a whole run every number is closed once per opening, except one time less while the holder still owns it or it is a stray |
| HolderRuns.ReceivedFate | tools/arena_holder.cpp:216-333 | the descriptors of a message with any bytes all become the store and none is closed, or each is closed exactly once within the step and none is stored |
| HolderRuns.LiveAtClose | tools/arena_holder.cpp:351-361 | when a message ends its connection, the connection is in the list, so the erase finds it, and afterwards it is gone while the others stay |
| HolderRuns.StoreChange | tools/arena_holder.cpp:261-324 | only an accepted store and an honored wipe change the store, and the state after is determined by which it was |
| HolderRuns.StoreIsLastAccepted | tools/arena_holder.cpp:230-331 | the store after any run is what the last accepted store put there that no honored wipe followed, and empty when there is none |
| HolderRuns.WarmReplyCarriesLastStore | tools/arena_holder.cpp:246-257 | a warm reply, wherever in a run, carries exactly the descriptors and blob of that last store, and the blob describes one segment per descriptor but the first |
| HolderRuns.EmptyReplyMeansNoStore | tools/arena_holder.cpp:242-245 | an empty reply is sent exactly when an attach is granted and no accepted store survives |
| HolderRuns.AttachReplies | tools/arena_holder.cpp:231-260 | what a warm or empty reply in a step says about the state it was sent in |
| HolderRuns.AttachedIsLastGranted | tools/arena_holder.cpp:233-240 | a connection is attached exactly when its granted attach is the last one and it has not ended since |
| HolderRuns.OtherChangesNothing | tools/arena_holder.cpp:233-304 | while a connection is attached, one event of anyone else leaves the attachment and the store as they are |
| HolderRuns.OthersChangeNothing | tools/arena_holder.cpp:233-304 | the same over any stretch of a run in which the attached connection says nothing |
| LastWrite.ValueIsLastPut | tools/arena_holder.cpp:277-316 | a register's value after a list of changes is that of the last put no clear follows, and nothing when there is none |
| ArenaHolder.Holder.AcceptConnection | tools/arena_holder.cpp:344-350 | accepting extends the run by one accept; over the cap the connection is closed unserved |
| ArenaHolder.Holder.HandleMsg | tools/arena_holder.cpp:216-333 | the handler's new state, verdict, reply and descriptor actions are those of the transition function, on every branch |
| ArenaHolder.Holder.HandleAttachMsg | tools/arena_holder.cpp:231-260 | the attach branch |
| ArenaHolder.Holder.HandleStoreMsg | tools/arena_holder.cpp:261-285 | the store branch: replace in full or reject in full |
| ArenaHolder.Holder.HandleWipeMsg | tools/arena_holder.cpp:286-324 | the wipe branch: refused off the attached connection or without an honored reason |
| ArenaHolder.Holder.Hangup | tools/arena_holder.cpp:355-360 | close, erase and auto-detach: the connection goes, the store stays |
| ArenaHolder.Holder.ServeMessage | tools/arena_holder.cpp:351-361 | one ready connection is one more event of the run, and no other connection leaves the list |
| ArenaHolder.Holder.HandleSnapshot | tools/arena_holder.cpp:351-361 | the loop over the polled connections handles exactly the ready ones, each once, in order and as its peer said it, though the list shrinks meanwhile |
| ArenaHolder.Holder.PollRound | tools/arena_holder.cpp:335-362 | for whatever poll reports and the peers say: a pass extends the run by an accept if the socket is readable and the accept succeeds, then by exactly one message, as its peer said it, of each connection that was live when it began and is ready |
| ArenaHolder.ReadyAreServed | tools/arena_holder.cpp:351-361 | in a pass without an accept every ready connection of the snapshot is served once, and nobody else |
| ArenaHolder.Holder.Shutdown | tools/arena_holder.cpp:363-365 | after the loop nothing is open but the strays of the run, and every other number was closed exactly as often as opened |
| ArenaHolder.Holder.Owns | tools/arena_holder.cpp:203-361 | in every reachable state of the running holder the open numbers are exactly what it owns and the strays |
| ArenaCtl.OtherClients | tools/arena_holder.cpp:335-362 | any number of accepts and messages of other connections leaves the attached client attached and the store unchanged |
| ArenaCtl.OwnWipe | tools/arena_ctl.cpp:156-167 | the tool's wipe, sent by the attached connection, empties the store and is answered with success |
| ArenaCtl.OwnDetach | tools/arena_ctl.cpp:108-113 | a detach message and a bare close have the same effect: the connection goes, the store stays |
| ArenaCtl.OwnAttach | tools/arena_ctl.cpp:73-105 | the tool's attach is granted when nobody else is attached and says whether and what is stored, else it is refused and the connection closed |
| ArenaCtl.Tool.Attach | tools/arena_ctl.cpp:54-106 | a socket is returned only when everything got through and nobody else was attached, and fails only when something was lost, the holder was full or somebody else attached; a returned socket means the holder has this client attached, and the reported status and count are those of its store; on failure no descriptor is left open |
| ArenaCtl.Tool.TakeDescriptors | tools/arena_ctl.cpp:82-86 | descriptors that ride the reply are closed at once, leaving the tool's table as it was |
| ArenaCtl.Tool.Detach | tools/arena_ctl.cpp:108-113 | the client parts and the store stays, whether or not the detach message got through |
| ArenaCtl.Tool.Wipe | tools/arena_ctl.cpp:156-188 | the store is emptied exactly when the request got through, and success is reported exactly when the answer did too |
| ArenaCtl.Tool.Run | tools/arena_ctl.cpp:117-191 | for whatever gets through and other clients acting throughout: the exit code, the report and the store at the end are determined by what the tool saw and which of its messages got through; nobody is attached afterwards, the tool's connection is gone and no descriptor of it survives; a run that was not let in has a stated cause |
| KvSharding.Rank0IsExact | python/autoconfig/sizing.py:134-139 | the closed form is exactly the number of pages that dealing out chunk by chunk gives rank 0 |
| KvSharding.HeldClosedForm | python/autoconfig/sizing.py:134-139 | the closed form of every rank's count |
| KvSharding.Rank0IsWorst | python/autoconfig/sizing.py:130-132 | no rank ever holds more than rank 0 |
| KvSharding.RanksSumToAll | python/autoconfig/sizing.py:133-139 | the ranks' counts sum to the number of pages |
| KvSharding.Rank0AtLeastShare | python/autoconfig/solver.py:1194-1198 | rank 0's count is never below the floored even share |
| KvSharding.Rank0Monotone | python/autoconfig/sizing.py:217-222 | more pages never give rank 0 fewer |
| Admission.DemandMonotone | python/autoconfig/sizing.py:202-230 | a longer request never demands fewer pages, through the shard cycle and the indexer terms |
| DemandByRank.SequencePagesExactly | python/autoconfig/sizing.py:132-139 | a layer's KV pages are rank 0's count when the least pages that cover the tokens are dealt out by chunks, a chunk being the whole pages that its tokens have room for, at least one |
| DemandByRank.PagesFollowTokens | python/autoconfig/sizing.py:217-222 | dealing pages by chunks is dealing the tokens by chunks: a page and all its tokens go to one rank |
| DemandByRank.NoRankHoldsMore | python/autoconfig/sizing.py:130-132 | no rank holds more pages than a request is charged |
| DemandByRank.IndexerPagesExactly | python/autoconfig/sizing.py:224-229 | the indexer's pages are rank 0's count when they are dealt out one by one |
| DemandByRank.DemandExactly | python/autoconfig/sizing.py:202-230 | the whole demand from those counts: KV layers, indexer layers at a slab a page, and the state |
| DemandByRank.PoolIsGreatest | python/autoconfig/sizing.py:140-143 | the KV pool is the largest that the requests need and the free bytes hold |
| DemandByRank.FloorExactly | python/autoconfig/solver.py:1194-1197 | the floor it is compared with is every request's even share, rounded down |
| Admission.AdmissibleContext | python/autoconfig/sizing.py:244-271 | the search loop terminates with the value of the specification function |
| Admission.SearchFinds | python/autoconfig/sizing.py:264-271 | the answer stays within the bound; it is 0 and inadmissible when an empty request does not fit, otherwise admissible, and the true ceiling exactly when one token past the bound does not fit |
| Admission.ShardsWithinLayersSuffice | python/autoconfig/sizing.py:264-264 | with no more shards than KV layers a request one token past the bound never fits |
| Admission.SearchIsExact | python/autoconfig/sizing.py:244-271 | hence the answer is the largest admissible length for every pool that holds an empty request |
| SearchTrust.ScaledDemand | python/autoconfig/sizing.py:217-230 | demand lies between two linear functions of the length, through the shard cycle and both indexer roundings |
| SearchTrust.PaceSuffices | python/autoconfig/sizing.py:264-264 | where demand grows at least as fast as the upper end, one token past the upper end never fits |
| SearchTrust.SlowDemandDefeats | python/autoconfig/sizing.py:264-271 | where it grows more slowly, a named pool holds a request past the upper end |
| SearchTrust.TrustedForEveryPool | python/autoconfig/sizing.py:244-271 | the search's answer is the ceiling for every pool that holds an empty request, if and only if demand keeps pace |
| SearchTrust.FewShardsKeepPace | python/autoconfig/sizing.py:217-229 | no more shards than KV layers is always enough |
| SearchTrust.PaceWithoutIndexer | python/autoconfig/sizing.py:217-229 | without an indexer, demand keeps pace exactly when there are no more shards than KV layers |
| Admission.RefusedOnlyByVram | python/autoconfig/solver.py:1191-1205 | the KV demand refusal fires exactly when the VRAM cap is below the floored demand, never because of the shard arithmetic |
| Admission.UncappedPool | python/autoconfig/sizing.py:124-143 | when VRAM does not cap it, the pool is what the concurrent requests need |
| UntieredFit.MappedStateAccounting | python/autoconfig/sizing.py:175-241 | on slabbed shapes the mapped state's bytes are its pages times the bytes per page |
| UntieredFit.IndexerAccounting | python/autoconfig/solver.py:1160-1180 | one sequence's indexer bytes are its admission pages times the bytes per page, in either indexer mode |
| UntieredFit.PartsSumToDemand | python/autoconfig/solver.py:1238-1254 | the KV, indexer and state parts sum to the demand that the ceiling search uses |
| UntieredFit.AtLeastAsked | python/autoconfig/solver.py:1250-1254 | the reported ceiling reaches a length exactly when the pool holds that length's demand and the search's upper end reaches it; where demand keeps pace, exactly when the pool holds it |
| UntieredFit.AcceptedIsAdmissible | python/autoconfig/solver.py:1207-1273 | when several concurrent requests are accepted, the reported ceiling is at least the asked length exactly when the search's upper end is; and it is unless the shards outnumber all the requests' KV layers |
| UntieredFit.PoolHoldsAsk | python/autoconfig/solver.py:1232-1237 | with ample VRAM the pool holds the whole ask exactly when spare prefix-cache state covers the speculation split |
| UntieredFit.ConcAskRefusedExactly | python/autoconfig/solver.py:1260-1273 | with ample VRAM, several concurrent requests are refused exactly when the speculation split outweighs the spare prefix-cache state |
| UntieredFit.SingleAskAdmissibleExactly | python/autoconfig/solver.py:1250-1254 | a single ample request is accepted, and is admissible exactly when the spare state covers the split |
| FitLedger.SlabExactly | python/autoconfig/sizing.py:110-119 | a slab is the least number of KV pages that covers an indexer page |
| FitLedger.StateExactly | python/autoconfig/solver.py:1131-1145 | the state bytes: a slot for each request, at least one, and each prefix-cache entry; mapped slots are the least whole slabs that cover each layer's state |
| FitLedger.SequenceExactly | python/autoconfig/solver.py:1160-1163 | one sequence's indexer bytes are a slab for each of rank 0's pages in each indexer layer |
| FitLedger.SequencesExactly | python/autoconfig/solver.py:1164-1180 | the indexer share holds as many of the asked sequences as fit, all but the first, in a quarter of what is left |
| FitLedger.SplitExactly | python/autoconfig/solver.py:1232-1233 | the speculation split is fifteen percent, rounded down |
| FitLedger.PoolExactly | python/autoconfig/solver.py:1234-1237 | the shared pool is the most pages in the KV bytes less the split, the indexer share and mapped state |
| FitLedger.KvPoolExactly | python/autoconfig/solver.py:1188-1193 | the KV pages granted are the most that the requests need and the rest of VRAM holds |
| FitLedger.RequestExactly | python/autoconfig/solver.py:1238-1249 | one request's demand at the asked length, from the counts of the worst rank |
| FitLedger.VerdictExactly | python/autoconfig/solver.py:1194-1281 | the three refusals and the acceptance, each with the comparison of sums that leads to it and the numbers it reports |
| ReduceLoop.NextAskLowers | python/autoconfig/solver.py:2115-2117 | a reduction strictly lowers the length, to no less than the floor and no more than the ceiling |
| ReduceLoop.NextAskExactly | python/autoconfig/solver.py:2115-2117 | the next ask is the last whole page below the ceiling, or the floor |
| ReduceLoop.ReduceToCeiling | python/autoconfig/solver.py:2076-2122 | the loop returns the specified outcome or refusal |
| ReduceLoop.ReduceGuarantees | python/autoconfig/solver.py:2068-2122 | lengths strictly fall and stay above the floor, a pinned length never moves, the ceilings belong to the final length, and leaving by break means no positive ceiling is below it |
| ReduceLoop.NeverAdmissible | python/autoconfig/solver.py:2068-2122 | for one request with ample VRAM on every GPU of the group: whatever length from the floor up is asked, the loop refuses or ends at a length above every ceiling reported for it, if and only if the split outweighs the spare state at the floor |
| ReduceLoop.GroupAt | python/autoconfig/solver.py:1250-1254 | at one length, every GPU's ceiling is below it when the split outweighs the spare state there, and reaches it otherwise |
| ReduceLoop.UncoveredAbove | python/autoconfig/solver.py:1232-1237 | a split that outweighs the spare state does so at every greater length |
| ReduceLoop.PlainNeverSettles | python/autoconfig/solver.py:2076-2122 | a concrete model and GPU for which no ask from 10 to 10000 tokens settles |
| ReduceFixpoint.SettlesExactly | python/autoconfig/solver.py:2076-2122 | with a round for every page of the ask above the floor, the loop ends without refusing at a length every reported ceiling reaches, if and only if the split is covered at the floor |
| ReduceFixpoint.TokensSuffice | python/autoconfig/solver.py:2076-2122 | a round for every token above the floor is always as many |
| ReduceFixpoint.UncoveredNeverSettles | python/autoconfig/solver.py:2076-2122 | with the floor uncovered no ask ends at such a length, in any number of rounds |
| ReduceFixpoint.SettlesNear | python/autoconfig/solver.py:2076-2122 | an ask at most as many pages above a covered length as there are rounds ends at a fixed point |
| ReduceFixpoint.SettlesBelow | python/autoconfig/solver.py:2076-2122 | where an ask ends at a fixed point in some rounds, so does every shorter one |
| ReduceFixpoint.CoveredStays | python/autoconfig/solver.py:2076-2080 | an ask is left as it is, by break in the first round with all ceilings reaching it, exactly when the split is covered at its own length |
| ReduceFixpoint.FixedExactly | python/autoconfig/solver.py:1250-1254 | a length's ceiling reaches it exactly when the spare state covers the split there |
| ReduceFixpoint.CeilingRises | python/autoconfig/solver.py:1232-1254 | a longer ask never has a lower ceiling |
| ReduceFixpoint.SettlesOrNot | python/autoconfig/solver.py:2076-2122 | what does not end at a fixed point refuses or ends above every ceiling |
| ReduceFixpoint.FourRoundsFallShort | python/autoconfig/solver.py:2076-2122 | a concrete model with a covered floor of 10 for which the asks up to 17 reach a fixed point in four rounds and none above does |
| ReduceLoop.NoStateUncovers | python/autoconfig/solver.py:1232-1237 | without mapped state the split outweighs it exactly from seven bytes of KV on |
| ReduceLoop.AmpleForShorter | python/autoconfig/solver.py:2076-2119 | VRAM ample for one request stays ample for a shorter one whose margin and expert bytes, worked out anew, are no greater |
| ExpertSlots.ExpertTargets | python/autoconfig/solver.py:1313-1350 | the allocator returns the specified grant or refusal |
| ExpertSlots.GrantConserves | python/autoconfig/solver.py:1313-1350 | slots handed out plus slots missing are the target; a normal return hands out exactly the target |
| ExpertSlots.GrantWithinCaps | python/autoconfig/solver.py:1323-1342 | hosts stay within capacity and TP GPUs between their floor and floor plus cap |
| ExpertSlots.GrantLevels | python/autoconfig/solver.py:1323-1342 | every host gets one common level or its capacity below it, every TP GPU its floor and an even share of the rest up to its cap |
| ExpertSlots.TwoRounds | python/autoconfig/solver.py:1323-1332 | the two rounds fill the hosts to the level given by the capacities alone, and leave what that leaves |
| ExpertSlots.RefusedExactly | python/autoconfig/solver.py:1333-1349 | refused exactly when what the hosts leave, a closed form of their capacities, is not evenly divisible among the TP GPUs or exceeds their caps; then all of them are at cap or fewer slots are missing than there are TP GPUs |
| ExpertSlots.RoomyHostsLeaveRest | python/autoconfig/solver.py:1323-1332 | hosts with room for more than an even share still leave the indivisible rest over |
| ExpertSlots.RefusesWithRoom | python/autoconfig/solver.py:1323-1349 | a concrete box, eight experts a token, where a target is refused with room on every GPU |
| FitSearch.BuildLattice | python/autoconfig/solver.py:1453-1469 | the nested loops emit every point of the lattice and nothing else, each once when the draft axis has no repeats |
| FitSearch.BuildLadder | python/autoconfig/solver.py:1433-1446 | the two loops build the specified capacity ladder |
| FitSearch.LadderSheds | python/autoconfig/solver.py:1429-1446 | every rung asks strictly less than all rungs above it, and a pinned axis never moves |
| FitSearch.LadderExactly | python/autoconfig/solver.py:1429-1446 | the rungs are the ask, every lower concurrency at the same length, and every halving of the length down to the floor, each unless pinned, and nothing else |
| FitSearch.KeysInjective | python/autoconfig/solver.py:109-145 | no two lattice points share an order key under any preference |
| FitSearch.SpeedOrder | python/autoconfig/solver.py:109-145 | speed: TP degree, indexer mode, draft, ask, tiering, in this order of importance |
| FitSearch.BalancedOrder | python/autoconfig/solver.py:109-145 | balanced: TP degree, the chain of ask and draft, indexer mode, tiering |
| FitSearch.CapacityOrder | python/autoconfig/solver.py:109-145 | capacity: the chain of ask and draft, TP degree, indexer mode, tiering |
| FitSearch.SortSorts | python/autoconfig/solver.py:1661-1661 | the sorted walk visits exactly the lattice's points, none before one with a smaller key |
| FitSearch.Memo.Evaluate | python/autoconfig/solver.py:2010-2022 | a cached verdict is the fit's own verdict |
| FitSearch.Memo.FirstFeasible | python/autoconfig/solver.py:1651-1667 | the walk with its cache returns the first fit of the sorted lattice, what was visited and the last failure |
| FitSearch.Memo.Search | python/autoconfig/solver.py:2024-2043 | the winner, or the error of the cheapest corner |
| FitSearch.SearchDecides | python/autoconfig/solver.py:1651-1667 | sort and scan finds the feasible attempt with the least key, and none only if nothing is feasible |
| FitSearch.WalkStopsAtFirstFit | python/autoconfig/solver.py:1651-1667 | the walk tries the attempts up to the first fit and no further, or all of them, and keeps the last failure's error |
| FitSearch.PreferenceNeverRefuses | python/autoconfig/solver.py:2024-2043 | all three preferences succeed or refuse together, with the same error |
| FitSearch.WinnerIsUnique | python/autoconfig/solver.py:128-145 | an attempt wins if and only if it is feasible with the least key |
| FitSearch.CheapestIsGreatest | python/autoconfig/solver.py:2039-2040 | the corner whose error is reported is the greatest point of the lattice |
| FitSearch.CornerOfLattice | python/autoconfig/solver.py:2039-2040 | on a lattice that corner has the last TP degree, indexer mode and rung, and the draft dropped where that is offered |
| FitSearch.CapacityKeepsTheAsk | python/autoconfig/solver.py:140-144 | capacity keeps the whole ask whenever any feasible attempt does |
| FitSearch.SpeedPaysForNothing | python/autoconfig/solver.py:134-142 | speed buys no priced slowdown whenever some feasible attempt buys none |
| FitSearch.BalancedEscalatesTpLast | python/autoconfig/solver.py:138-145 | balanced leaves the first TP degree only when nothing fits there |
| FitSearch.DraftGoesFirst | python/autoconfig/solver.py:109-125 | if dropping the draft never breaks a fit, balanced and capacity never shed capacity with the draft on |
| TpDegree.Degree | python/autoconfig/solver.py:518-543 | the largest power of two within the top-class run that divides all head counts, refused exactly over the per-rank cap |
| TpDegree.Halve | python/autoconfig/solver.py:523-530 | doubling then halving finds that largest degree |
| TpDegree.RefusedForAll | python/autoconfig/solver.py:531-537 | when it is refused every other allowed degree breaks the cap as well |
| GgufRoundTrip.SkipFollowsRead | python/autoconfig/gguf_meta.py:84-137 | on any bytes: where building a value succeeds, skipping succeeds and stops at the same offset, arrays nested to any depth |
| GgufRoundTrip.KeepMovesNothing | python/autoconfig/gguf_meta.py:84-105 | how many array items are kept changes neither the cursor nor success |
| GgufRoundTrip.ValueRoundTrip | python/autoconfig/gguf_meta.py:84-105 | reading an encoded value yields it and stops right behind it |
| GgufRoundTrip.CursorsAgree | python/autoconfig/gguf_meta.py:84-137 | both parsers stop right behind any well-formed encoding, whatever is kept |
| GgufRoundTrip.TensorInfosRoundTrip | python/autoconfig/gguf_meta.py:171-193 | read_tensor_infos of an encoded header is exactly the encoded descriptors, whatever follows |
| GgufRoundTrip.MetadataRoundTrip | python/autoconfig/gguf_meta.py:140-168 | read_metadata of an encoded header yields every entry, later ones over earlier ones of the same key, exactly when no tokenizer array holds arrays |
| GgufTruncation.CutsMissed | python/autoconfig/gguf_meta.py:84-137 | of any value cut short, exactly how much may be missing for the building and for the skipping parser to accept it |
| GgufTruncation.ReadCut | python/autoconfig/gguf_meta.py:84-105 | a file that ends inside a value, anywhere in the file: the building parser succeeds exactly when only characters of the value's last string are missing |
| GgufTruncation.SkipCut | python/autoconfig/gguf_meta.py:118-137 | the skipping parser succeeds exactly when only the last string's characters, or bytes of the last scalar or scalar array, are missing |
| GgufTruncation.TruncatedHeader | python/autoconfig/gguf_meta.py:171-193 | of any proper prefix of an encoded header, read_tensor_infos accepts exactly those of a header without tensors that miss no more than the last entry's slack, and then finds no tensors |
| GgufTruncation.TruncatedMetadata | python/autoconfig/gguf_meta.py:140-168 | exactly which proper prefixes of an encoded header read_metadata accepts |
| GgufTruncation.ScalarCutOff | python/autoconfig/gguf_meta.py:118-137 | a concrete truncated header that read_tensor_infos accepts and read_metadata does not |
| GgufTruncation.CharactersCutOff | python/autoconfig/gguf_meta.py:67-69 | a concrete truncated header that both accept |
| GgufBytes.TypeTable | python/autoconfig/gguf_meta.py:72-76 | the thirteen value types and their sizes |
| GgufBytes.UnknownTypesRaise | python/autoconfig/gguf_meta.py:84-137 | both value parsers refuse every other type |
| GgufBytes.NamesSpelled | python/autoconfig/gguf_meta.py:151-157 | the magic and the tokenizer prefix, letter by letter |
| GgufBytes.StartExactly | python/autoconfig/gguf_meta.py:147-153 | a file's first twenty-four bytes: magic, version of at least 2, number of tensors, number of entries |
| GgufBytes.ForeignFilesRaise | python/autoconfig/gguf_meta.py:171-181 | both readers refuse a shorter file, another magic and version 1 |
| GgufReader.File.Read | python/autoconfig/gguf_meta.py:67-69 | the bytes from the cursor on, short at the end of the file, and the cursor past them |
| GgufReader.File.Unpack | python/autoconfig/gguf_meta.py:67-69 | the little-endian number at the cursor, or the error of a short read |
| GgufReader.File.ReadStr | python/autoconfig/gguf_meta.py:67-69 | a length-prefixed string at the cursor |
| GgufReader.File.ReadOneValue | python/autoconfig/gguf_meta.py:84-105 | the recursive value reader returns the specified value and cursor |
| GgufReader.File.ReadArray | python/autoconfig/gguf_meta.py:93-105 | its element loop, with nested arrays |
| GgufReader.File.SkipOneValue | python/autoconfig/gguf_meta.py:118-137 | the skipping parser moves the cursor as specified |
| GgufReader.File.SkipTokens | python/autoconfig/gguf_meta.py:108-115 | the tokenizer arrays' skip loop moves the cursor as specified |
| GgufReader.File.ReadTensorInfo | python/autoconfig/gguf_meta.py:183-192 | one tensor descriptor at the cursor |
| GgufReader.ReadMetadataOf | python/autoconfig/gguf_meta.py:140-168 | the metadata reader over a file equals its specification function |
| GgufReader.ReadTensorInfosOf | python/autoconfig/gguf_meta.py:171-193 | the descriptor reader over a file equals its specification function |
| PinnedRegion.RanksDistinct | python/autoconfig/gguf_meta.py:439-441 | no two of the packed types are equally wide |
| PinnedRegion.ScanWidths | python/autoconfig/gguf_meta.py:409-436 | the scan maps every packed slot that occurs to the widest type it occurs with, and nothing else |
| PinnedRegion.ScanOrderIrrelevant | python/autoconfig/gguf_meta.py:409-436 | scans of the same tensors in any shard order are equal |
| PinnedRegion.PackedBelowBf16 | python/autoconfig/gguf_meta.py:444-457 | a slot at the checkpoint's width is never above its BF16 size |
| PinnedRegion.PackedRowsMonotone | python/autoconfig/gguf_meta.py:444-457 | fewer rows never take more bytes |
| PinnedRegion.NarrowerExactly | python/autoconfig/gguf_meta.py:444-457 | the exact condition under which cutting a slot's columns does not grow it |
| PinnedRegion.NarrowerMayGrow | python/autoconfig/gguf_meta.py:444-457 | one slot that grows when its columns are cut |
| PinnedRegion.AttentionBelowBound | python/autoconfig/gguf_meta.py:471-590 | one layer's exact attention bytes are at most the bound arm's |
| PinnedRegion.ExactBelowBound | python/autoconfig/gguf_meta.py:747-933 | for every model, TP degree and width scan the exact region is at most the BF16 upper bound, and both raise alike |
| PinnedTp.RegionShrinks | python/autoconfig/pipeline.py:105-107 | the region does not grow with TP when the o_proj slots together do not |
| PinnedTp.RegionGrowsExactly | python/autoconfig/pipeline.py:105-107 | the region grows with TP exactly when the o_proj slots gain more than everything else saves, and what else there is never grows |
| PinnedTp.NeverGrowsExactly | python/autoconfig/pipeline.py:105-107 | no MLA model with given o_proj slots grows, whatever its other sizes, if and only if those slots together do not grow |
| PinnedTp.RegionMayGrow | python/autoconfig/pipeline.py:105-107 | a concrete model and width scan whose region grows by at least a million bytes from one rank to two |
| PinnedTp.RestShrinks | python/autoconfig/gguf_meta.py:747-933 | everything but the o_proj slots never grows with TP |
| PinnedTp.OProjShrinksExactly | python/autoconfig/gguf_meta.py:471-590 | the exact condition under which one layer's o_proj slot does not grow with TP |
| PinnedTp.NarrowSlotsShrink | python/autoconfig/gguf_meta.py:471-590 | if each slot meets it, the slots together do not grow |
| PinnedAttention.AttentionDecides | python/autoconfig/pipeline.py:105-107 | no model with given attention, in any mix of linear, MLA and MTP layers, grows with TP, whatever its vocabulary and feed-forward sizes, if and only if the attention slots together do not grow |
| PinnedAttention.RegionApart | python/autoconfig/gguf_meta.py:747-933 | a region grows by no more than its attention, and by exactly that when no other slot is sharded |
| PinnedAttention.LinearGrowsExactly | python/autoconfig/gguf_meta.py:471-590 | a linear layer grows with TP exactly when its o_proj columns fall off their blocks and that gains more than the channels and heads leaving the rank save |
| PinnedAttention.LinearByRows | python/autoconfig/gguf_meta.py:471-590 | the closed form of a linear layer beside o_proj: so much per channel, per head and per rank |
| PinnedTp.BoundShrinks | python/autoconfig/pipeline.py:105-107 | the upper-bound region never grows with TP |
| PinnedLayout.TotalWithout | python/autoconfig/gguf_meta.py:905-905 | the sum over components does not depend on the order of the names |
| PinnedLayout.EmitAdds | python/autoconfig/gguf_meta.py:807-808 | emitting adds its size to the sum |
| PinnedLayout.Layout | python/autoconfig/gguf_meta.py:747-933 | the accumulated components sum, with the alignment budget, to the region formula, and each of the seventeen components is what the layers and blocks emit of it |
| PinnedSlots.AttentionBySlots | python/autoconfig/gguf_meta.py:471-590 | a linear or MLA layer's attention bytes are the sum over a table of its matrices and vectors, with their rows, columns and widths, rounded up to sixteen |
| PinnedSlots.PartExactly | python/autoconfig/gguf_meta.py:846-903 | every sharded or replicated component: its size in each hidden layer, each layer with experts or each dense layer, times their number, and in each MTP block |
| PinnedSlots.AttentionExactly | python/autoconfig/gguf_meta.py:846-886 | the attention component: every hidden layer by its kind, and an MLA layer without hc tensors for each MTP block, numbered on |
| PinnedSlots.EndsExactly | python/autoconfig/gguf_meta.py:814-869 | embedding, output head and final norm |
| PinnedSlots.MoeLayersExactly | python/autoconfig/gguf_meta.py:738-744 | how many hidden layers have experts |
| PinnedSlots.FfnExactly | python/autoconfig/gguf_meta.py:680-703 | the feed-forward sizes in whole blocks, and when there are none |
| PinnedSlots.PackedExactly | python/autoconfig/gguf_meta.py:444-457 | a slot of whole blocks takes them row by row, any other two bytes an element |
| PinnedSlots.BlockAnatomy | python/autoconfig/gguf_meta.py:33-44 | the packed types' block sizes from what is in a block |
| PinnedSlots.RankExactly | python/autoconfig/gguf_meta.py:439-441 | which types are packed, and their rank as bytes for 256 elements |
| RecipeTree.SortedKeysExact | python/autoconfig/compare.py:65-65 | the keys visited are those of either object, each once, in order |
| RecipeTree.SameLookups | python/autoconfig/compare.py:64-67 | objects that answer every lookup alike are equal |
| RecipeTree.LessExactly | python/autoconfig/compare.py:65-65 | keys are in code-point order: the first difference decides, a proper prefix comes first |
| RecipeDiff.RowsRebuildDerived | python/autoconfig/compare.py:63-84 | applying the emitted rows one after the other to the reference yields the derived recipe |
| RecipeDiff.RowsAreTruthful | python/autoconfig/compare.py:63-84 | every row gives the two recipes' values at its path, and they differ |
| RecipeDiff.SilentIffEqual | python/autoconfig/compare.py:63-84 | no rows if and only if the recipes are equal |
| RecipeLeaves.RowsExactly | python/autoconfig/compare.py:63-84 | a row is emitted exactly where the path runs through comparable values and ends where the two sides differ and are comparable no more, or at the differing lengths of two comparable lists |
| RecipeLeaves.RowsAreLeaves | python/autoconfig/compare.py:63-84 | no row holds two objects, or two lists of objects with an element in one of them |
| RecipeLeaves.RowsAscend | python/autoconfig/compare.py:65-80 | the rows come in the order of their paths: keys in order, a list's length before its elements, those by number |
| RecipeCompare.Diff.Visit | python/autoconfig/compare.py:63-84 | the walk appends exactly the specified rows, under its path, to the shared list |
| RecipeCompare.PathsDistinct | python/autoconfig/compare.py:63-84 | no two rows have the same path |
| RecipeCompare.WalkAnnounced | python/autoconfig/compare.py:68-82 | every one-sided element row comes after the length row of its list, at any depth |
| RecipeCompare.Compare | python/autoconfig/compare.py:163-186 | each row is classified on its own, except that a one-sided element takes the class of its list's length row |
| RecipeCompare.ElementsShareAClass | python/autoconfig/compare.py:173-182 | all one-sided elements of a list share the class of its one length row |
| RecipeLengths.LengthRowsHaveElements | python/autoconfig/compare.py:68-82 | every length row comes with exactly as many one-sided elements of its list as the lengths differ by, at least one, at any depth |
| RecipeLengths.NeverOneUnexplained | python/autoconfig/compare.py:28-31 | an unexplained length row is followed by another unexplained row, so it is never the only one |
| RecipeLengths.OneEntryMore | python/autoconfig/compare.py:28-31 | two concrete recipes, one list entry apart, that differ in two rows |
| RecipeCompare.ElementsNeverDecide | python/autoconfig/compare.py:173-182 | acceptance is refused exactly when a row other than a one-sided element is unexplained on its own |
| KdaGolden.ConvForward | tools/gen_kda_golden.py:161-174 | the tap-by-tap convolution of all tokens and channels gives each its four taps added in order, then SiLU |
| KdaGolden.RunKda | tools/gen_kda_golden.py:186-278 | for every token and head, core and onorm are those of that head's own recurrence; the states after prefill and after all tokens are every head's, and the conv states the three windows after prefill |
| KdaEntries.StateEntry | tools/gen_kda_golden.py:161-252 | every entry of every state is one scalar expression: decay, then the beta-scaled error written along the key |
| KdaEntries.CoreEntry | tools/gen_kda_golden.py:254-256 | every entry of the core: the written state read at the scaled unit query |
| KdaEntries.OnormEntry | tools/gen_kda_golden.py:258-261 | every entry of the normed output |
| KdaEntries.ConvEntry | tools/gen_kda_golden.py:151-174 | every convolved input: four taps over the last four inputs, then SiLU |
| KdaEntries.DecayEntry | tools/gen_kda_golden.py:232-238 | every decay factor, bias included |
| KdaGolden.ConvStateAt | tools/gen_kda_golden.py:176-180 | the rows it returns are the window after the given tokens: the three raw inputs before, oldest first, in every channel |
| KdaResume.PrefillThenDecode | tools/gen_kda_golden.py:263-278 | a case that starts from the states and windows the run kept after prefill, given only the remaining inputs, has every later state and output of the whole run |
| KdaRecheck.HeadConv | tools/gen_kda_golden.py:311-332 | the shifting-history convolution gives the same values |
| KdaRecheck.DecayColumns | tools/gen_kda_golden.py:352-353 | the column-by-column decay is the whole-matrix decay |
| KdaRecheck.RecheckToken | tools/gen_kda_golden.py:284-368 | the recheck, with its own sigmoid, normalisation, decay, column and row loops, computes core and onorm of the same recurrence, given only that multiplying by minus one negates |
| KdaRecheck.CrossCheck | tools/gen_kda_golden.py:597-605 | for any token and head the recheck equals the run exactly |
| KdaCarry.ConvSilu | tools/glm53_numpy_ref.py:185-199 | outputs and returned state equal the convolution and window functions, a missing state being zeros |
| KdaCarry.WindowSplit | tools/glm53_numpy_ref.py:185-199 | the window of a continued input, for pieces shorter than the window too |
| KdaCarry.ConvSplit | tools/glm53_numpy_ref.py:185-199 | convolving x then y from the returned window equals convolving x + y |
| KdaCarry.ConvStateAt | tools/glm53_numpy_ref.py:185-199 | three rows of the padded input are the window at any token, and convolving the rest from it is the rest of the run |
| KdaScan.Scan | tools/glm53_numpy_ref.py:202-232 | the scan's core, onorm and final state equal the recurrence functions |
| KdaScan.ScanSplit | tools/glm53_numpy_ref.py:202-232 | scanning x then y from the returned state equals scanning x + y, cores and state |
| KdaScan.OnormSplit | tools/glm53_numpy_ref.py:230-232 | the same for the normed outputs |
| KdaScan.Forward | tools/glm53_numpy_ref.py:412-422 | the three convolutions and the scan together equal the layer functions |
| KdaScan.CarrySplit | tools/glm53_numpy_ref.py:185-232 | a layer run over x + y equals x, then y from the carry x leaves: outputs and final carry, for all lengths |
| KdaBridge.LayerIsRun | tools/glm53_numpy_ref.py:185-232 | given that the two scripts' sigmoids, gates and means agree, the reference layer on the golden case's inputs gives its core and normed output at every token and head |
| KdaBridge.LayerEndsInState | tools/glm53_numpy_ref.py:202-232 | and ends in its states |
| KdaBridge.WindowsAre | tools/glm53_numpy_ref.py:185-199 | and leaves the conv windows that the golden run keeps |
| DriftSegment.FindRuns | tools/drift_dump_diff.py:51-62 | exactly the maximal prefill runs of at least the minimum length, in order |
| DriftSegment.Segment | tools/drift_dump_diff.py:51-67 | blocks start exactly at the starts of those runs, each ends where the next begins and the last at the end of the dump |
| DriftSegment.BlocksPartition | tools/drift_dump_diff.py:51-67 | every record from the first request on lies in exactly one block, no earlier record in any |
| DriftSegment.SegmentationUnique | tools/drift_dump_diff.py:51-67 | a dump has only one such segmentation |

## Left out

- Arena tools: sockets, fork and daemonise, poll and errno, logging, argument parsing. Replies are assumed sent whole; descriptors over the receive limit, which the helper closes itself, never appear in a message.
- Arena client: the branch for a reply with a foreign magic number cannot arise, since the only server modelled is this holder.
- GPU memory mapping of the segments, the engine side of the arena, and the segments' own meaning.
- The solver's floats: `int(x * 0.15)` is the rational floor, `math.ceil(a / b)` is exact on integers, `round(ratio * total)` and byte sizes per page, slab, slot and layer are inputs.
- The solver's V4 and tiered arms, the long-context plan, draft sizing from checkpoints, indexer auto mode, GPU ordering, pins other than those the ladder and the reduce loop read, warnings and explanation texts.
- `expert_targets` with the ratio unset: two assignments with no loop.
- DraftGoesFirst: feasibility being closed under dropping the draft is a hypothesis, because rounding to display quanta keeps it from being provable of the fit itself.
- GGUF: a read length beyond the machine's index range, which raises in Python instead of coming back short, and the recursion limit on deeply nested arrays; UTF-8 decoding and the conversion of scalar bytes to Python numbers (values keep type and raw bytes), the shard enumeration, files changing while read.
- Pinned region: architectures other than glm5_next, formats other than GGUF, custom pinned layers and per-layer TP modes; mapping tensor names to slots, so a descriptor carries its slot; provenance strings.
- RegionShrinks: one direction only; RegionGrowsExactly is the exact condition.
- NeverAdmissible: asks on which VRAM binds are outside it; there the ceiling also depends on the shares the other claims leave.
- SettlesExactly: a statement about the TP group's fits. The refusals that `_fit_attempt` adds, those of `expert_targets` and the overflow of a host GPU, are not part of the reduce loop's model.
- Recipe diff: paths are sequences of steps, not strings, so a key named "length" or containing dots or brackets cannot collide with other paths; Python's equality between numbers of different types; the `<missing>` marker as a genuine value; how one row is classified on its own, which is a parameter.
- KDA: float values themselves, the recheck in double precision, the gate statistics, the low-rank projections, file output; numpy's summation order is one uninterpreted vector sum.
- `splitmix64_scalar`, `splitmix64_vec`, `bf16_round`: the streams differ only in a closed form of the counter.
- `drift_dump_diff`'s file scan and record comparison.
- Everything else in the repository: the CUDA and C++ engine, kernels, HTTP, hardware detection, benchmarks, templates and reports.
