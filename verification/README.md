# Block layer and crypto cores of Linux 2.6.32.63, modelled and proved in Dafny

The project models the I/O path of the block layer (ordered barriers, the anticipatory,
deadline and CFQ schedulers, merging, segment counting, completion, tags and nested
submission) and four pieces of the crypto directory (Camellia, CBC, the X9.31 generator and
the algorithm-name parser).  What runs under `queue_lock` is one atomic step.  Protocols are
state machines over such steps, with theorems about every run; code that updates objects,
buffers or lists in place is also written as Dafny classes and loops, each proved against
the function the theorems are about.

| files | what they hold |
|---|---|
| `BarrierModel`, `BarrierStages`, `BarrierHistory`, `BarrierDrain`, `BarrierSafety`, `BarrierQueue` | the barrier sequence: exact completion, conservation of requests, the drain promise with one colour bit and exactly when it holds |
| `AsChoice`, `AsWakeup`, `AsForced`, `AsQueue` | anticipatory scheduler: optimality of the cached request, no lost wake-up, exactly when forced dispatch empties it |
| `DeadlineModel`, `DeadlineProofs`, `DeadlineHistory`, `DeadlineStarvation`, `DeadlineQueue` | deadline scheduler: agreement of its structures, conservation of requests, the exact starvation bound, draining |
| `CfqModel`, `CfqProofs`, `CfqHistory`, `CfqQueue` | CFQ: agreement of its structures, conservation of requests, forced dispatch, acyclic merge links |
| `MergeModel`, `MergeProofs`, `MergeQueue` | request merging and the merge hash |
| `Segments` | segment counting against greedy scatter-gather mapping |
| `Completion`, `CompletionRequest` | partial completion and failing mixed merges |
| `Tags`, `TagQueue` | the tag allocator |
| `Submission` | generic_make_request |
| `CamelliaAlgebra`, `CamelliaInverse`, `CamelliaKernel`, `CamelliaWords`, `CamelliaCipher` | Camellia against RFC 3713, encryption and decryption |
| `Cbc`, `CbcLoops` | CBC against section 6.2 of NIST SP 800-38A |
| `Prng`, `PrngContext` | the generator against ANSI X9.31 Appendix A.2.4 |
| `AlgName`, `AlgNameParser` | instance names |
| `Wrappers`, `Sequences` | the optional value and the list helpers several modules share |

Some promises turned out to hold only under a condition, which is proved to be exact, and
one bound is larger than its tunables suggest:

- The drain promise of a barrier fails when a request that is not an fs request is a hard
  barrier (`drivers/block/pktcdvd.c:783` submits one): such a request is not drained, flips
  the colour, and a later stage can overtake an earlier fs request.  `DrainSafetyIff` shows
  that this is the only way.
- The anticipatory scheduler's cache can miss the best request when a queued request starts
  inside the dispatched one and a request that is not a neighbour is served earlier;
  `DispatchKeepsBestIff` gives the exact condition, for requests of any length.
- Reads can starve a write for one batch more than `writes_starved` batches, because an
  alias dispatch sets next_rq without counting a batch.  `BoundIsExact` gives the bound for
  all tunables: `(writes_starved + 1) * fifo_batch` reads, or `writes_starved` of them when
  fifo_batch is 0, are reached and never exceeded.
- Completing a bytes and then b leaves the sector numbers of completing a + b exactly if no
  sector is lost to the odd bytes of the two steps (`TwoStepsAreOne`, `SectorIsLost`).
- Forced dispatch of the anticipatory scheduler empties it exactly if next_rq is set in each
  direction that has requests.  A front merge that dispatches an alias can break this
  (`AliasingMergeLosesNext`), and nothing else does (`RunNextSet`).
- When a generator that is not of fixed size gives bytes, they are as many as were asked for
  exactly if that number is not zero and at most 2^32; asked for none it gives 2^32.  One of
  fixed size gives a block, however many were asked for (`GivesWhatIsAsked`,
  `ZeroIsNotGiven`).

Clocks, seek statistics, allocation results, the positions where tree walks end and the
answers of drivers enter as parameters that range over everything they can be.  Jiffies and
sectors are unbounded naturals; red-black trees are sequences in order.

## Model

| member | source | states |
|---|---|---|
| `BarrierStages.BarrierCompletionIsExact` | linux-2.6.32.63/block/blk-barrier.c:91-233 | for every mode, every run and every next step: `ordseq` is STARTED plus the stages the mode leaves out and the finished ones, a start leaves DRAIN open iff it must drain, no stage bit is set twice, every barrier taken off the queue but the one in progress has ended once, and an original request ends exactly when its sequence completes, with the first error reported |
| `BarrierStages.RunStages` | linux-2.6.32.63/block/blk-barrier.c:91-279 | the stage bookkeeping holds in every state a run reaches |
| `BarrierStages.CompleteStage` | linux-2.6.32.63/block/blk-barrier.c:113-129 | an end_io function finds the bit of its stage open and sets it; the original request ends exactly if that completes the sequence |
| `BarrierStages.CompleteBits` | linux-2.6.32.63/block/blk-barrier.c:91-111 | completing bits ends the original request exactly when no stage and no draining is left, with the first error; otherwise it only adds the bits |
| `BarrierHistory.NoRequestIsLost` | linux-2.6.32.63/block/elevator.c:598-678 | after any run every ticket handed out is completed or in exactly one place, never both |
| `BarrierHistory.StepConserved` | linux-2.6.32.63/block/elevator.c:539-678 | each operation moves a request or completes it; none is lost or completed twice |
| `BarrierDrain.ColorIsEnough` | linux-2.6.32.63/block/blk-barrier.c:62-89 | up to the first request that reads as DONE the one-bit colour tells the two sides of the barrier apart |
| `BarrierDrain.BarrierInFront` | linux-2.6.32.63/block/elevator.c:695-729 | a request two barriers back has the next barrier queued in front of it, which is why one bit suffices |
| `BarrierDrain.HandedOutInTurn` | linux-2.6.32.63/block/blk-barrier.c:235-279 | what blk_do_ordered hands out during a sequence is the stage whose turn it is, or belongs to the sequence |
| `BarrierDrain.StepOrder` | linux-2.6.32.63/block/blk-barrier.c:153-279 | every operation keeps the order by rank and the drain counts |
| `BarrierDrain.RequeueOrder` | linux-2.6.32.63/block/elevator.c:650-678 | reinsertion by sequence number keeps the queue in order |
| `BarrierSafety.EarlierIsDone` | linux-2.6.32.63/block/blk-barrier.c:235-279 | once the drain bit is set everything that arrived before the barrier has completed |
| `BarrierSafety.DrainSafety` | linux-2.6.32.63/block/blk-barrier.c:62-279 | in drain mode, over every run, a stage goes to the driver only when all earlier fs requests have completed, no later fs request is issued until the sequence ends, and while the drain is waited for something will look again: a counted request in flight, one at the head that may go out, or a special one with the driver (barriers being fs requests) |
| `BarrierSafety.StageOvertakes` | linux-2.6.32.63/block/blk-barrier.c:62-89 | a run in which a hard special request lets a stage overtake an earlier fs request |
| `BarrierSafety.DrainSafetyIff` | linux-2.6.32.63/block/blk-barrier.c:62-279 | the drain promise holds in all runs if and only if only fs requests are hard barriers |
| `BarrierQueue.RequestQueue.Start` | linux-2.6.32.63/block/blk-barrier.c:153-233 | in place, the state function of start_ordered |
| `BarrierQueue.RequestQueue.AskHead` | linux-2.6.32.63/block/blk-barrier.c:235-279 | in place: what is handed out is the request then at the head, and the queue changes only if a barrier is taken, which is refused, ended at once or started with exact bookkeeping |
| `BarrierQueue.RequestQueue.Reinsert` | linux-2.6.32.63/block/elevator.c:650-678 | the insertion loop puts the request at the place the state function computes |
| `BarrierQueue.RequestQueue.RequeueRequest` | linux-2.6.32.63/block/elevator.c:539-554 | in place, the state function of elv_requeue_request |
| `BarrierQueue.RequestQueue.CompleteRequest` | linux-2.6.32.63/block/elevator.c:823-853 | in place, completion through the end_io functions and the drain check |
| `BarrierQueue.RequestQueue.FetchRequest` | linux-2.6.32.63/block/blk.h:54-69 | the loop at the head ends and is a run of the model |
| `CamelliaAlgebra.PreparedIsPlain` | linux-2.6.32.63/crypto/camellia.c:887-940 | for both key sizes, with a prepared table the rounds compute the plain cipher of section 2.3 of RFC 3713 |
| `CamelliaAlgebra.DecryptUndoesEncrypt` | linux-2.6.32.63/crypto/camellia.c:887-995 | for every table, decryption undoes encryption |
| `CamelliaAlgebra.SetupThenEncryptIsPlain` | linux-2.6.32.63/crypto/camellia.c:381-940 | for all raw subkeys and blocks, the table the setup leaves makes encryption the plain cipher with explicit kw1 to kw4 |
| `CamelliaAlgebra.SetupPrepares24` | linux-2.6.32.63/crypto/camellia.c:381-578 | for 18 rounds the setup leaves the table the rounds need |
| `CamelliaAlgebra.SetupPrepares32` | linux-2.6.32.63/crypto/camellia.c:381-578 | the same for 24 rounds |
| `CamelliaInverse.DecryptIsReversed` | linux-2.6.32.63/crypto/camellia.c:942-995 | decryption is encryption with the table reversed |
| `CamelliaInverse.EncryptUndoesDecrypt` | linux-2.6.32.63/crypto/camellia.c:887-995 | for every table, encryption undoes decryption |
| `CamelliaInverse.SetupThenDecryptIsPlain` | linux-2.6.32.63/crypto/camellia.c:381-995 | for all raw subkeys and blocks, decryption on the table the setup leaves is the plain cipher with the subkeys in reverse order (section 2.3.3 of RFC 3713) and inverts the plain cipher |
| `CamelliaWords.CamelliaIsLawful` | linux-2.6.32.63/crypto/camellia.c:359-376 | the word functions obey the laws the rearrangement needs, whatever the tables |
| `CamelliaWords.KeyPastSboxes` | linux-2.6.32.63/crypto/camellia.c:872-885 | the round macro with a key added behind the S-boxes is F of the input plus the injected key |
| `CamelliaWords.InjectedUnspread` | linux-2.6.32.63/crypto/camellia.c:560-577 | the last setup loop prepares exactly the key that gets injected |
| `CamelliaWords.FLUndoes` | linux-2.6.32.63/crypto/camellia.c:854-869 | the inverse FL layer undoes the FL layer |
| `CamelliaWords.TablesComputeStandardF` | linux-2.6.32.63/crypto/camellia.c:359-376 | the table form of F is the F-function of section 2.4.1 of RFC 3713 for any S-boxes |
| `CamelliaWords.CamelliaIsStandard` | linux-2.6.32.63/crypto/camellia.c:381-940 | for all S-boxes, raw subkeys and blocks, encryption on the prepared table is the standard cipher |
| `CamelliaKernel.DoEncrypt` | linux-2.6.32.63/crypto/camellia.c:887-940 | in place, the rounds with the table's meaning |
| `CamelliaKernel.DoDecrypt` | linux-2.6.32.63/crypto/camellia.c:942-995 | in place, the rounds backwards |
| `CamelliaKernel.Setup` | linux-2.6.32.63/crypto/camellia.c:381-578 | in place on the subkey arrays, leaves a table whose meaning is the prepared one |
| `CamelliaKernel.UnspreadRounds` | linux-2.6.32.63/crypto/camellia.c:560-577 | the loop rewrites exactly the six round keys of every block |
| `CamelliaKernel.EncryptBlock` | linux-2.6.32.63/crypto/camellia.c:1033-1055 | a block encrypted on a table made by the setup is the plain cipher's |
| `CamelliaKernel.EncryptThenDecrypt` | linux-2.6.32.63/crypto/camellia.c:1033-1080 | the buffer comes back unchanged, whatever the table |
| `CamelliaCipher.Context.EncryptBlock` | linux-2.6.32.63/crypto/camellia.c:1033-1055 | with a context made by the setup, a block becomes the standard cipher of the raw subkeys |
| `CamelliaCipher.Context.DecryptBlock` | linux-2.6.32.63/crypto/camellia.c:1057-1080 | and decryption is the standard's procedure and its inverse |
| `CamelliaCipher.SetKey` | linux-2.6.32.63/crypto/camellia.c:381-578 | the word-level macros make a context that holds the standard cipher, whatever the S-boxes |
| `CamelliaCipher.SetupAndEncrypt` | linux-2.6.32.63/crypto/camellia.c:381-1055 | setup and encryption, word by word and in place, are the standard cipher for all S-boxes, raw subkeys and blocks |
| `CamelliaCipher.SetupAndDecrypt` | linux-2.6.32.63/crypto/camellia.c:381-1080 | setup and decryption are the standard's decryption and undo its cipher |
| `AsChoice.BeforeIsTotalOrder` | linux-2.6.32.63/block/as-iosched.c:293-361 | the seek order behind as_choose_req is a strict total order on positions |
| `AsChoice.ChoiceIsFirst` | linux-2.6.32.63/block/as-iosched.c:293-361 | as_choose_req returns the request that is first in that order |
| `AsChoice.NeighboursDecide` | linux-2.6.32.63/block/as-iosched.c:368-391 | if the head stands between the neighbours, as_find_next_rq finds the global best |
| `AsChoice.HiddenIsMissed` | linux-2.6.32.63/block/as-iosched.c:368-391 | when something is hidden, a queued request is served before the one the two neighbours show |
| `AsChoice.DispatchKeepsBestIff` | linux-2.6.32.63/block/as-iosched.c:973-1008 | after a dispatch the cache is the global best if and only if nothing is hidden behind a request starting inside the dispatched one |
| `AsChoice.HiddenBehindAnInnerRequest` | linux-2.6.32.63/block/as-iosched.c:368-391 | concrete requests for which it is not |
| `AsChoice.NextIsAlwaysBest` | linux-2.6.32.63/block/as-iosched.c:789-1008 | over every run without front merges in which nothing is hidden, next_rq is the best queued request |
| `AsChoice.ApartIsAlwaysBest` | linux-2.6.32.63/block/as-iosched.c:789-1008 | while no queued request starts inside another nothing is ever hidden, so next_rq is always the best queued request |
| `AsWakeup.DispatchValid` | linux-2.6.32.63/block/as-iosched.c:1024-1181 | an unforced dispatch keeps the machine; if it returns nothing with requests queued, a request is uncompleted or the timer is armed |
| `AsWakeup.CompletedValid` | linux-2.6.32.63/block/as-iosched.c:840-890 | completion keeps the machine: a finished awaited request starts the timer |
| `AsWakeup.AddValid` | linux-2.6.32.63/block/as-iosched.c:1186-1212 | adding a request, with its alias dispatch, keeps the machine |
| `AsWakeup.FrontMergedValid` | linux-2.6.32.63/block/as-iosched.c:1263-1280 | so does a front merge, even when it leaves next_rq empty |
| `AsWakeup.MergedIntoValid` | linux-2.6.32.63/block/as-iosched.c:1282-1305 | so does a request merge |
| `AsWakeup.NoWakeupIsLost` | linux-2.6.32.63/block/as-iosched.c:419-1181 | in every reachable state a dispatch that holds queued requests back leaves an uncompleted request or an armed timer, and waiting states know their process |
| `AsWakeup.DispatchSends` | linux-2.6.32.63/block/as-iosched.c:1024-1181 | what a dispatch call sends was queued, and it is the only request that moves |
| `AsWakeup.RunKeeps` | linux-2.6.32.63/block/as-iosched.c:840-1305 | over every run the scheduler and the driver hold exactly the requests added and neither completed nor absorbed |
| `AsForced.RunNextSet` | linux-2.6.32.63/block/as-iosched.c:973-1305 | over every run without a front merge that dispatches an alias, next_rq is set in each direction that has requests |
| `AsForced.DispatchNextSet` | linux-2.6.32.63/block/as-iosched.c:1024-1181 | an unforced dispatch keeps next_rq set where there are requests |
| `AsForced.AliasingMergeLosesNext` | linux-2.6.32.63/block/as-iosched.c:1263-1280 | a run that ends, after such a front merge, with a request queued and next_rq not set |
| `AsQueue.AsData.DispatchRequests` | linux-2.6.32.63/block/as-iosched.c:1024-1181 | in place: one queued request goes to the driver or nothing moves, the object stays valid, and if requests stay behind an uncompleted request or the armed timer will run the queue |
| `AsQueue.AsData.DrainLane` | linux-2.6.32.63/block/as-iosched.c:1045-1048 | the loop ends: a direction whose next_rq is set is emptied, one whose next_rq is not set keeps its requests; the other direction is untouched and every request that left is with the driver |
| `AsQueue.AsData.ForceDispatch` | linux-2.6.32.63/block/as-iosched.c:1031-1058 | forced dispatch returns the number of requests that went to the driver, loses none, and leaves the scheduler empty if and only if next_rq was set in each direction that had requests |
| `AsQueue.AsData.MoveToDispatch` | linux-2.6.32.63/block/as-iosched.c:973-1016 | in place: the request is the driver's and in no list, no other moves, nobody waits, no timer is left and the lists agree again |
| `AsQueue.AsData.CompletedRequest` | linux-2.6.32.63/block/as-iosched.c:840-890 | in place: the request is gone from the driver; the last one of an old batch schedules the work that runs the queue, and one that is waited for arms the timer |
| `AsQueue.AsData.AnticStop` | linux-2.6.32.63/block/as-iosched.c:453-464 | in place: nobody waits any more, no timer is left, and if somebody waited the work that runs the queue is scheduled |
| `AsQueue.AsData.AnticWaitReq` | linux-2.6.32.63/block/as-iosched.c:438-447 | in place: afterwards the awaited request is with the driver or the timer is armed |
| `DeadlineProofs.LatterIsNext` | linux-2.6.32.63/block/deadline-iosched.c:65-74 | the latter request is the queued one with the next higher sector, None only at the end |
| `DeadlineProofs.MergedFifoTimed` | linux-2.6.32.63/block/deadline-iosched.c:171-184 | a request merge keeps the fifo ordered by expiry, the survivor having the earlier one |
| `DeadlineProofs.RunValid` | linux-2.6.32.63/block/deadline-iosched.c:76-327 | in every reachable state both lists hold the same requests, at most one next_rq is set and it is queued, fifos are ordered by expiry and nr_sorted counts |
| `DeadlineProofs.HeadDecides` | linux-2.6.32.63/block/deadline-iosched.c:228-239 | the head of the fifo has expired iff anything in it has |
| `DeadlineProofs.SelectedIsQueued` | linux-2.6.32.63/block/deadline-iosched.c:245-327 | the selected request is queued, and a call is idle iff nothing is |
| `DeadlineStarvation.ReadCosts` | linux-2.6.32.63/block/deadline-iosched.c:262-327 | a read sent while a write waits uses up the credit that batches and starvation leave |
| `DeadlineStarvation.StarvationBound` | linux-2.6.32.63/block/deadline-iosched.c:245-327 | if a write waits at each of more than (writes_starved+1)*fifo_batch dispatch calls (writes_starved, if fifo_batch is 0), one sends a write, whatever comes between |
| `DeadlineStarvation.BoundIsReached` | linux-2.6.32.63/block/deadline-iosched.c:76-327 | for all tunables a run in which a write waits through that many reads |
| `DeadlineStarvation.BoundIsExact` | linux-2.6.32.63/block/deadline-iosched.c:245-327 | a number of dispatch calls is sure to send a waiting write if and only if it exceeds the bound |
| `DeadlineHistory.NoRequestIsLost` | linux-2.6.32.63/block/deadline-iosched.c:76-327 | over every run the queued and dispatched requests are those added and not absorbed, each in one place |
| `DeadlineQueue.DeadlineData.MoveRequest` | linux-2.6.32.63/block/deadline-iosched.c:206-222 | in place: the request goes to the end of the dispatch queue, none is lost or added, and the lists agree again |
| `DeadlineQueue.DeadlineData.AddRqRb` | linux-2.6.32.63/block/deadline-iosched.c:76-84 | the alias loop ends after at most one dispatch |
| `DeadlineQueue.DeadlineData.AddRequest` | linux-2.6.32.63/block/deadline-iosched.c:100-113 | in place, the state function of deadline_add_request |
| `DeadlineQueue.DeadlineData.MergedRequest` | linux-2.6.32.63/block/deadline-iosched.c:156-168 | in place, the state function of a front merge |
| `DeadlineQueue.DeadlineData.MergeRequests` | linux-2.6.32.63/block/deadline-iosched.c:170-189 | in place: the absorbed request leaves both lists, the other keeps the earlier deadline, and the other direction is untouched |
| `DeadlineQueue.DeadlineData.DispatchRequests` | linux-2.6.32.63/block/deadline-iosched.c:245-327 | goto by goto, the state function of deadline_dispatch_requests |
| `DeadlineQueue.DeadlineData.DrainElevator` | linux-2.6.32.63/block/elevator.c:556-568 | the drain loop ends with both lists empty and nr_sorted 0, every queued request dispatched once |
| `MergeModel.Found` | linux-2.6.32.63/block/elevator.c:334-354 | the first mergeable request of a chain ending at the sector, None iff there is none on it |
| `MergeProofs.MixedKeepsContent` | linux-2.6.32.63/block/blk-merge.c:323-342 | marking a request mixed changes no bio's place or effective failfast flags |
| `MergeProofs.BackKeepsContent` | linux-2.6.32.63/block/blk-core.c:1188-1208 | a back merge appends the bio with its own flags; the bios still tile the request |
| `MergeProofs.FrontKeepsContent` | linux-2.6.32.63/block/blk-core.c:1210-1243 | a front merge prepends it |
| `MergeProofs.JoinKeepsContent` | linux-2.6.32.63/block/blk-merge.c:363-434 | a request merge concatenates, every bio keeping place and effective flags |
| `MergeProofs.FindIsScan` | linux-2.6.32.63/block/elevator.c:334-354 | elv_rqhash_find finds a mergeable queued request ending at the sector iff one exists |
| `MergeProofs.FindKeepsHash` | linux-2.6.32.63/block/elevator.c:334-354 | dropping unmergeable entries on the way keeps the hash right |
| `MergeProofs.Reposition` | linux-2.6.32.63/block/elevator.c:328-332 | repositioning puts a changed request on the chain of its new end |
| `MergeProofs.MergeIsAdjacent` | linux-2.6.32.63/block/elevator.c:476-509 | elv_merge proposes only mergeable requests in the elevator adjacent to the bio |
| `MergeProofs.StepValid` | linux-2.6.32.63/block/blk-core.c:1158-1284 | submission, dispatch and becoming unmergeable keep every bio in one request, the tiling and the hash; a submission records its bio as it came |
| `MergeProofs.RunRecords` | linux-2.6.32.63/block/blk-core.c:1158-1284 | no submission of a run is dropped, changed or invented |
| `MergeProofs.MergingPreservesMeaning` | linux-2.6.32.63/block/blk-core.c:1158-1284 | after any run every bio submitted in it is in exactly one request, at one place, with its sectors and failfast flags, nothing else is in any request, the bios tile their requests and the hash answers like a scan |
| `MergeQueue.SetMixedMerge` | linux-2.6.32.63/block/blk-merge.c:323-342 | the walk over the bios computes the mixed request |
| `MergeQueue.WalkChain` | linux-2.6.32.63/block/elevator.c:334-354 | the chain walk returns what is found and what stays linked |
| `MergeQueue.RequestQueue.RqHashFind` | linux-2.6.32.63/block/elevator.c:334-354 | in place: finds a request iff a scan of the elevator would |
| `MergeQueue.RequestQueue.Merge` | linux-2.6.32.63/block/elevator.c:476-509 | in place, the function of elv_merge |
| `MergeQueue.RequestQueue.AttemptMerge` | linux-2.6.32.63/block/blk-merge.c:363-434 | in place, joins exactly when the tests pass |
| `MergeQueue.RequestQueue.SubmitBio` | linux-2.6.32.63/block/blk-core.c:1158-1284 | in place, the function of __make_request |
| `Completion.ConsumesFirstBytes` | linux-2.6.32.63/block/blk-core.c:1985-2030 | completing n bytes removes exactly the first n bytes of data; sizes add up to what is left |
| `Completion.EndsInOrder` | linux-2.6.32.63/block/blk-core.c:1985-2005 | bios end once each and in order |
| `Completion.TwoStepsAreOne` | linux-2.6.32.63/block/blk-core.c:1949-2080 | completing a then b ends the bios and leaves the data of completing a+b; the sector numbers agree if and only if no sector is lost to the odd bytes |
| `Completion.SectorIsLost` | linux-2.6.32.63/block/blk-core.c:132-154 | bios for which they do not agree |
| `Completion.WholeSectorsLoseNone` | linux-2.6.32.63/block/blk-core.c:132-154 | bios of whole sectors completed by whole sectors lose none |
| `Completion.ErrBytesAreTheEager` | linux-2.6.32.63/block/blk-core.c:1686-1711 | failing blk_rq_err_bytes ends exactly the leading bios with all the first one's failfast flags |
| `CompletionRequest.Walk` | linux-2.6.32.63/block/blk-core.c:1985-2036 | the loop over bios and bio_vecs computes the ended bios and the place to resume |
| `CompletionRequest.CountErrBytes` | linux-2.6.32.63/block/blk-core.c:1703-1707 | counts the eager prefix, at least one byte of it |
| `CompletionRequest.Request.Update` | linux-2.6.32.63/block/blk-core.c:1949-2080 | in place: the chain left and the bios ended are those of the functions, and __data_len is what is left |
| `CompletionRequest.Request.ErrorBytes` | linux-2.6.32.63/block/blk-core.c:1686-1711 | never zero while data is left: its BUG_ON does not fire |
| `CompletionRequest.Request.FailAll` | linux-2.6.32.63/block/blk-core.c:2257-2260 | repeated failing ends every bio once, in order |
| `Segments.ScanCuts` | linux-2.6.32.63/block/blk-merge.c:12-170 | counter and mapper both cut the bio_vecs into legal segments |
| `Segments.GreedyIsAhead` | linux-2.6.32.63/block/blk-merge.c:118-170 | greedy mapping is optimal: no legal cut has fewer segments |
| `Segments.JoinWitness` | linux-2.6.32.63/block/blk-merge.c:274-310 | fusing the two segments that meet is legal when the recorded front and back sizes allow it |
| `Segments.RaisedWitness` | linux-2.6.32.63/block/blk-merge.c:294-306 | sizes raised by a merge that is then refused still bound their segments |
| `Segments.RecountedBioWitness` | linux-2.6.32.63/block/blk-merge.c:225-272 | recounting the last or the first bio before a merge leaves nr_phys_segments alone and sizes that still bound their segments |
| `Segments.EntriesFit` | linux-2.6.32.63/block/blk-merge.c:118-310 | however a request was counted, recounted at one end, merged and refused a merge, mapping fills at most nr_phys_segments entries |
| `Segments.EntriesCover` | linux-2.6.32.63/block/blk-merge.c:118-170 | the entries cover the request's bytes in order |
| `Segments.EntryKeepsLimits` | linux-2.6.32.63/block/blk-merge.c:134-146 | an entry of several bio_vecs keeps the size limit and stays in one boundary window |
| `Segments.RecalcSegments` | linux-2.6.32.63/block/blk-merge.c:12-70 | the counting loop computes the strict cut's size and its front and back sizes |
| `Segments.MapSg` | linux-2.6.32.63/block/blk-merge.c:118-170 | the mapping loop computes the greedy cut's entries |
| `CfqProofs.FindNextIs` | linux-2.6.32.63/block/cfq-iosched.c:465-487 | cfq_find_next_rq finds another request iff there is one |
| `CfqProofs.TreeAddOk` | linux-2.6.32.63/block/cfq-iosched.c:504-585 | wherever the walk ends, the leftmost cache stays empty or first |
| `CfqProofs.InsertValid` | linux-2.6.32.63/block/cfq-iosched.c:715-746 | adding a request, with alias dispatch and queue activation, keeps the structures in agreement |
| `CfqProofs.RepositionValid` | linux-2.6.32.63/block/cfq-iosched.c:748-753 | so does repositioning after a front merge, though the queue may leave and re-enter the tree |
| `CfqProofs.RemoveRequestValid` | linux-2.6.32.63/block/cfq-iosched.c:798-813 | so does removing a request |
| `CfqProofs.SelectValid` | linux-2.6.32.63/block/cfq-iosched.c:1242-1293 | the selected queue, active, cooperating or first in the tree, has a request |
| `CfqProofs.StructuresAgree` | linux-2.6.32.63/block/cfq-iosched.c:438-1460 | in every reachable state, rounds that are refused and forced dispatch included, a queue is on the tree iff its sort_list is non-empty iff next_rq is set, busy_queues counts them, and no empty queue is selected |
| `CfqHistory.StepMoves` | linux-2.6.32.63/block/cfq-iosched.c:715-1460 | every operation moves exactly the requests it is about: an alias out, a new one in, an absorbed one out, and by a round the request the queue sends, or none |
| `CfqHistory.NoRequestIsLost` | linux-2.6.32.63/block/cfq-iosched.c:715-1460 | over every run the requests held at the end, those sent and those absorbed are, counted with multiplicity and with their queues, those held at the start and those inserted |
| `CfqQueue.CfqData.RbFirst` | linux-2.6.32.63/block/cfq-iosched.c:438-447 | the in-order first queue, through the cache |
| `CfqQueue.CfqData.DispatchInsert` | linux-2.6.32.63/block/cfq-iosched.c:1134-1148 | in place: the request leaves its queue, the other queues are untouched, and the structures agree again |
| `CfqQueue.CfqData.ForcedDispatchQueue` | linux-2.6.32.63/block/cfq-iosched.c:1295-1306 | the queue's loop ends with sort_list and fifo empty |
| `CfqQueue.CfqData.ForcedDispatch` | linux-2.6.32.63/block/cfq-iosched.c:1312-1326 | the loop ends with every queue empty and busy_queues 0 |
| `CfqQueue.NoCycle` | linux-2.6.32.63/block/cfq-iosched.c:1196-1236 | forward links never lead back |
| `CfqQueue.LinkEnds` | linux-2.6.32.63/block/cfq-iosched.c:1225-1235 | linking two chain ends keeps the links forward |
| `CfqQueue.MergeLinks.constructor` | linux-2.6.32.63/block/cfq-iosched.c:2657-2666 | without queues there are no links |
| `CfqQueue.MergeLinks.NewQueue` | linux-2.6.32.63/block/cfq-iosched.c:1793-1849 | a new queue has no link and none leads to it; the links stay forward |
| `CfqQueue.MergeLinks.SetupMerge` | linux-2.6.32.63/block/cfq-iosched.c:1196-1236 | the chain walk ends and at most one link between chain ends is added, towards more references |
| `CfqQueue.MergeLinks.WalkChain` | linux-2.6.32.63/block/cfq-iosched.c:1597-1607 | the walk on exit ends without meeting its start |
| `Tags.StartValid` | linux-2.6.32.63/block/blk-tag.c:336-383 | the request gets the lowest free tag below its limit, the others keep theirs, and bit, index and busy list agree |
| `Tags.EndValid` | linux-2.6.32.63/block/blk-tag.c:281-316 | its tag and only its tag is free again, and they still agree |
| `Tags.ResizeValid` | linux-2.6.32.63/block/blk-tag.c:219-264 | so does resizing, growth not being clamped below the old depth |
| `Tags.RefusedSync` | linux-2.6.32.63/block/blk-tag.c:360-373 | a sync request is refused only when all tags never open to async are held by sync requests |
| `Tags.SyncIsNotStarved` | linux-2.6.32.63/block/blk-tag.c:336-383 | at constant depth of two or more, only if sync requests hold min(2, depth-1) tags |
| `Tags.InvalidateReturns` | linux-2.6.32.63/block/blk-tag.c:398-404 | invalidating clears every tag and puts the busy requests back in front, turned round |
| `Tags.ReversedIsIssueOrder` | linux-2.6.32.63/block/blk-tag.c:381-404 | which is the order of issue |
| `Tags.RunValid` | linux-2.6.32.63/block/blk-tag.c:219-404 | over every run a bit is set iff its entry is a started request with that tag |
| `TagQueue.FindFirstZero` | linux-2.6.32.63/block/blk-tag.c:369-370 | the first free tag below the limit |
| `TagQueue.Queue.StartTag` | linux-2.6.32.63/block/blk-tag.c:336-383 | in place, the state function of blk_queue_start_tag |
| `TagQueue.Queue.EndTag` | linux-2.6.32.63/block/blk-tag.c:281-316 | in place: the tag is free, the other holders keep theirs, and map and index agree |
| `TagQueue.Queue.ResizeTags` | linux-2.6.32.63/block/blk-tag.c:219-264 | the copy loop computes the resized map |
| `TagQueue.Queue.InvalidateTags` | linux-2.6.32.63/block/blk-tag.c:398-404 | the loop leaves no tag out and the requests in front, earliest issued first |
| `Submission.QueueIsBreadthFirst` | linux-2.6.32.63/block/blk-core.c:1506-1544 | serving first come first served is serving the submission tree level by level |
| `Submission.ServedOnce` | linux-2.6.32.63/block/blk-core.c:1506-1544 | every submission is processed exactly once |
| `Submission.Task.Append` | linux-2.6.32.63/block/blk-core.c:1508-1514 | bio_tail stays at the end of the list |
| `Submission.Task.TakeOff` | linux-2.6.32.63/block/blk-core.c:1535-1539 | unlinking the first bio keeps list and tail right |
| `Submission.Task.GenericMakeRequest` | linux-2.6.32.63/block/blk-core.c:1506-1544 | if a make_request is active the bio goes to the end of the list; otherwise the bio and all that comes of it is processed in level order, and at no time is more than one make_request active |
| `Submission.Task.MakeRequest` | linux-2.6.32.63/block/blk-core.c:1409-1490 | a make_request that submits through generic_make_request only lengthens the list |
| `Cbc.RoundTrip` | linux-2.6.32.63/crypto/cbc.c:90-191 | decryption inverts encryption for any number of blocks |
| `Cbc.CipherUndoes` | linux-2.6.32.63/crypto/cbc.c:42-191 | for every block permutation the two block steps undo each other |
| `Cbc.EncryptChunks` | linux-2.6.32.63/crypto/cbc.c:102-109 | chunks of whole blocks can be encrypted one after the other |
| `Cbc.DecryptChunks` | linux-2.6.32.63/crypto/cbc.c:181-188 | the same for decryption |
| `Cbc.IvChunks` | linux-2.6.32.63/crypto/cbc.c:102-109 | the IV after two chunks is the IV after the second, started with the one after the first |
| `Cbc.MaskIsRem` | linux-2.6.32.63/crypto/cbc.c:152 | for the powers of two crypto_cbc_alloc admits, the mask gives the odd bytes |
| `CbcLoops.XorInto` | linux-2.6.32.63/crypto/algapi.c:897-907 | words, then bytes: the exclusive or of the two stretches |
| `CbcLoops.EncryptSegment` | linux-2.6.32.63/crypto/cbc.c:42-64 | output, remainder and final IV of CBC encryption |
| `CbcLoops.EncryptInPlace` | linux-2.6.32.63/crypto/cbc.c:66-88 | the same, in place |
| `CbcLoops.DecryptSegment` | linux-2.6.32.63/crypto/cbc.c:114-138 | output, remainder and final IV of CBC decryption |
| `CbcLoops.DecryptInPlace` | linux-2.6.32.63/crypto/cbc.c:140-167 | the same, in place and backwards |
| `CbcLoops.Encrypt` | linux-2.6.32.63/crypto/cbc.c:90-112 | whatever chunks the walk offers, the encryption of the whole, with its last ciphertext block left as the IV for what follows |
| `CbcLoops.Decrypt` | linux-2.6.32.63/crypto/cbc.c:169-191 | likewise for decryption |
| `Prng.ReadsCompose` | linux-2.6.32.63/crypto/ansi_cprng.c:188-274 | reading n bytes and then m is reading n+m |
| `Prng.ReadsAreOneRead` | linux-2.6.32.63/crypto/ansi_cprng.c:188-274 | reads of any sizes, one after the other, are one read of their sum |
| `Prng.ReadLength` | linux-2.6.32.63/crypto/ansi_cprng.c:188-274 | a read of n bytes gives n bytes |
| `Prng.BytesAreTheStream` | linux-2.6.32.63/crypto/ansi_cprng.c:188-274 | a read of n bytes gives the first n of the rest of the current block and then the block stream of ANSI X9.31 Appendix A.2.4 |
| `Prng.AllReadsAreTheStream` | linux-2.6.32.63/crypto/ansi_cprng.c:188-274 | put together they are as many of the first bytes of that stream as the sizes add up to |
| `Prng.BlocksDiffer` | linux-2.6.32.63/crypto/ansi_cprng.c:128-147 | blocks read through without a failed check differ from their predecessors |
| `Prng.CounterCounts` | linux-2.6.32.63/crypto/ansi_cprng.c:165-172 | DT advances by the number of blocks modulo 2^128 |
| `PrngContext.Generator.Count` | linux-2.6.32.63/crypto/ansi_cprng.c:165-172 | the carry loop adds one |
| `PrngContext.Generator.GetMore` | linux-2.6.32.63/crypto/ansi_cprng.c:88-185 | a new block, or a refusal when it repeats the last |
| `PrngContext.Generator.GetBytes` | linux-2.6.32.63/crypto/ansi_cprng.c:188-274 | the bytes of the stream, or an error and a required reset exactly when a check fails; refused without effect when the flags say so; when bytes are given they are as many as asked exactly under the condition of GivesWhatIsAsked |
| `PrngContext.GivesWhatIsAsked` | linux-2.6.32.63/crypto/ansi_cprng.c:188-274 | when bytes are given: their number is the number asked for iff that is not zero and at most 2^32, or, for a generator of fixed size, a block, which is what it always gives |
| `PrngContext.ZeroIsNotGiven` | linux-2.6.32.63/crypto/ansi_cprng.c:233-243 | a usable generator that is asked for no bytes and gives 2^32 |
| `PrngContext.Generator.Reset` | linux-2.6.32.63/crypto/ansi_cprng.c:281-323 | the stream of the new seed starts, or the context stays unusable if setting the key fails |
| `AlgName.ParseUndoesPrint` | linux-2.6.32.63/crypto/algboss.c:113-181 | parsing a printed name gives the root template and exactly the printed arguments, only all-digit leaves being numbers |
| `AlgName.PrintUndoesParse` | linux-2.6.32.63/crypto/algboss.c:113-181 | what the parser accepts starts with its own answer printed again |
| `AlgName.PrintSkips` | linux-2.6.32.63/crypto/algapi.c:748-754 | printed names are balanced |
| `AlgName.ArgEnds` | linux-2.6.32.63/crypto/algboss.c:127-150 | the parser finds the end of a printed argument |
| `AlgNameParser.ScanName` | linux-2.6.32.63/crypto/algboss.c:127-128 | a run of name characters, and whether it is all digits |
| `AlgNameParser.SkipGroup` | linux-2.6.32.63/crypto/algboss.c:130-141 | the counting loop finds the closing parenthesis |
| `AlgNameParser.ScanArgs` | linux-2.6.32.63/crypto/algboss.c:120-175 | the loop over the arguments |
| `AlgNameParser.ParseName` | linux-2.6.32.63/crypto/algboss.c:113-181 | the parser as a whole |

## Left out

- Sysfs, ioctl, bsg, statistics, tracing, bounce buffers, integrity data and timeouts: no effect on the modelled behaviour.
- elv_dispatch_sort's position: the barrier model lets a dispatched request go to any place behind the stop flags instead of computing it.
- Elevator switching and queue abort.
- Camellia key schedules (camellia_setup128, 192 and 256): the raw subkeys are arbitrary.
- S-box contents: the tables are arbitrary functions, the standard's tables being built from arbitrary S-boxes.
- Reference counts, prio-tree order and slice accounting of CFQ: cooperators and tree positions are choices.
- Red-black rebalancing, hlist and list internals, memory allocation failure in the middle of a resize.
- Padding and drain buffers of blk_rq_map_sg; requests without data in ll_merge_requests_fn.
- ll_back_merge_fn, ll_front_merge_fn and the tests of elv_rq_merge_ok other than rq_mergeable: they enter as yes-or-no answers.
- The value simple_strtol gives to a number, and the 64-byte limit on names: the parser is modelled on strings of any length.
- A stale as_antic_timeout that has fired but not yet taken the lock: the timer and its handler are one step.
- CfqProofs.TreeAddOk: the order of keys in the service tree is not modelled, because a queue's class can change while it is on the tree.
- Tags.ResizeValid: a growth that init_tag_map adjusts to less than the old depth (twice nr_requests below it) is not modelled, because the old map, which is copied whole, does not fit the new one.
- TagQueue.Queue.ResizeTags: the same.
