# Fabric tests: verified models of the protocols

Dafny models, with proofs, of the parts of the fabric test suite that compute or coordinate something: the distributed
RandomAccess (GUPS) benchmark, the thread barrier, the collectives built on a key-value store, the windowed bandwidth
protocol and the table/CSV writer. `dafny verify dfyconfig.toml` checks everything.

## The system

**RandomAccess** (`performance/multi-node/random_access.c`). Every rank owns a block of one table of 64-bit words and
replays its part of one pseudo-random stream. Each value is masked to a global index, mapped to a rank and a local
index, and XORed into that rank's memory by a remote atomic. A second pass must undo the first.

- `PowersOfTwo`, `Words`, `WordNumbers`: shifts, words as 64 bits, XOR, the mask as a remainder.
- `Lfsr`: the generator as multiplication by x modulo x^64 + x^2 + x + 1 over GF(2); squaring as a linear map.
- `BitVectors`: the same operations on machine words, used to evaluate the stream at its period.
- `JumpAhead`: the square-and-multiply routine, in place.
- `TableLayout`: table size, block distribution and the address arithmetic with C's integer conversions.
- `UpdateStream`: the serial loop, in place, and the split of the stream over the ranks.
- `RandomAccess`: all ranks as a transition system, one atomic XOR or barrier operation per step, any interleaving.
- `Cluster`: the same system with the tables as arrays that are updated in place; it refines `RandomAccess` step by step.

**Thread barrier** (`include/ct_tbarrier.h`, client `performance/multi-node/rdm_one_sided.c`). `ThreadBarrier` splits a
call into its atomic operations, for any number of threads and calls; `BarrierMachine` is the same in memory, with the
spawn loop of `main`.

**Collectives** (`common/ct_utils.c`, `include/ct_utils.h`). `Codec` is the nibble codec, `Keys` the key strings,
`Collectives` the gather and broadcast protocol for any sequence of calls, `CollectiveMachine` the same with the store
and the ranks' records updated in place, `RankOrder` the permutation fix, `Reduction` the reduction every rank computes
from what it gathered.

**Windowed pairs** (`performance/multi-node/rdm_mbw_mr.c`). `WindowProtocol` holds senders, receivers, idle ranks and
the network as one transition system, `WindowProgress` its termination, `WindowMachine` the same in memory; `WindowTraffic` is what a window posts and how
completions are awaited.

**For all protocols**, `Fairness` proves once that bounded progress and a fair schedule end every run; `Multiples` and
`Totals` are the arithmetic of the measures.

**Table and CSV writer** (`common/ct_print_utils.c`). `CsvText` is the one-shot conversion, `CsvWriter` the two buffers
that grow or are flushed.

## Where the code differs from what one would expect

- The header comment of `random_access.c` (lines 65-66) asks for a table of at most half the total memory. The loop at
  lines 768-770 always chooses more than half: the largest power of two that fits in all of it
  (`TableLayout.ComputeTableSize`).
- `update_table` keeps the rank, the block start and the local index in C ints. The start is truncated and the index is
  still right, because the two truncations cancel; all placements are right if and only if the largest block has at
  most 2^31 words (`TableLayout.Layout.PlacementExact`). `PlaceTooFar` names the first offset that goes wrong.
- `decode` reports the length of the encoded string, twice the number of decoded bytes. `gni_pmi_receive` still copies
  exactly what was sent when sender and receiver agree on the length; the exact condition is `Codec.CopyInBounds`.
- The guard of `ct_add_line` is an unsigned equality, so it notices only a line that fills the room exactly. A line is
  added safely if and only if it is no longer than the room left (and memory does not run out); two lines that each fit
  an empty buffer can overrun it together (`CsvWriter.SecondLineOverruns`).

## Model

| member | source | states |
|---|---|---|
| UpdateStream.StepNumber | performance/multi-node/random_access.c:714 | a generator step in numbers: doubling modulo 2^64 and, when the top bit was set, exclusive or with 7 |
| UpdateStream.FirstNumber | performance/multi-node/random_access.c:672 | the stream starts with the number 1 |
| Lfsr.Wrap | performance/multi-node/random_access.c:714 | the reduction rule of the feedback polynomial holds at every distance: x^(64+n) = x^(n+2) + x^(n+1) + x^n |
| Lfsr.Value128 | performance/multi-node/random_access.c:672-677 | what the table-building loop leaves behind is x^128 = x^4 + x^2 + 1, the value that makes squaring work across the wrap-around |
| Lfsr.SquareLinear | performance/multi-node/random_access.c:686-690 | squaring commutes with XOR |
| Lfsr.SquareIsCombine | performance/multi-node/random_access.c:686-690 | XOR of the even powers selected by the set bits of a word is the square of the word, for every word |
| Lfsr.SquareShift | performance/multi-node/random_access.c:685-694 | squaring turns one generator step into two |
| Lfsr.SquareValue | performance/multi-node/random_access.c:685-694 | the square of the n-th stream value is the 2n-th |
| BitVectors.OctupleStep | performance/multi-node/random_access.c:189-190 | three squarings and a step on machine words lead from stream value n to stream value 8n + 1 |
| BitVectors.PeriodReturnsToOne | performance/multi-node/random_access.c:189-190 | PERIOD steps lead from 1 back to 1 |
| JumpAhead.PeriodRepeats | performance/multi-node/random_access.c:667-668 | subtracting PERIOD from a seed never changes the value |
| JumpAhead.SeedFits | performance/multi-node/random_access.c:679-681 | a reduced seed has no bit above the one where the search for its highest bit starts |
| JumpAhead.GenerateInitialXorVal | performance/multi-node/random_access.c:655-697 | for every 64-bit seed the logarithmic-time loop returns the one-step generator applied seed times to 1 |
| TableLayout.ComputeTableSize | performance/multi-node/random_access.c:762-770 | from the memory option, 200000 by default, and the number of ranks: the result is 2^log 8-byte words, fits the memory of all ranks unless it is 1, and is always more than half of it |
| TableLayout.Layout.StartShares | performance/multi-node/random_access.c:775-790 | every rank has an equal share and the first ranks one entry more, and a block starts after the shares of the ranks before it |
| TableLayout.Layout.StartNext | performance/multi-node/random_access.c:783-790 | consecutive blocks are adjacent, across the change of block size |
| TableLayout.Layout.StartEnds | performance/multi-node/random_access.c:775-790 | the blocks begin at 0 and end at the table size |
| TableLayout.Layout.LocalInTable | performance/multi-node/random_access.c:858-859 | every local entry is an entry of the table |
| TableLayout.BottomBranch | performance/multi-node/random_access.c:719-722 | the second branch never divides by zero, even with more ranks than entries, and yields an existing rank |
| TableLayout.Layout.PlaceCorrect | performance/multi-node/random_access.c:715-723 | the computed rank owns the offset; the index is right if and only if it fits in an int |
| TableLayout.Layout.PlacementExact | performance/multi-node/random_access.c:704-723 | all placements of a table are right if and only if its largest block has at most 2^31 entries |
| TableLayout.Layout.PlaceTooFar | performance/multi-node/random_access.c:704-723 | in every larger layout offset 2^31 is misplaced |
| TableLayout.Layout.HolderUnique | performance/multi-node/random_access.c:784-790 | no entry belongs to two blocks |
| TableLayout.Layout.PlaceOfLocal | performance/multi-node/random_access.c:715-723 | placement inverts the global numbering: local entry i of rank r is found at (r, i), so placement is onto |
| TableLayout.TruncatedDifference | performance/multi-node/random_access.c:718-723 | the truncations of start and index cancel exactly when the true difference fits in an int |
| WordNumbers.MaskIsMod | performance/multi-node/random_access.c:715 | masking with table_size - 1 is the remainder modulo table_size for every power of two |
| WordNumbers.FromNatValue | performance/multi-node/random_access.c:859 | a table index survives being stored as a word, so restored tables hold distinct, known values |
| UpdateStream.MaskedInRange | performance/multi-node/random_access.c:715 | a masked value is a valid table index |
| UpdateStream.SerialEntry | performance/multi-node/random_access.c:713-726 | after n serial updates entry g is g XORed with exactly the values addressed to it |
| UpdateStream.SerialRandomAccess | performance/multi-node/random_access.c:711-725 | the serial loop in place computes the reference table |
| UpdateStream.UpdatesSplit | performance/multi-node/random_access.c:713-726 | a stream segment acts like its two halves one after the other |
| UpdateStream.StreamPartition | performance/multi-node/random_access.c:839-861 | the ranks' streams in rank order are values 1 to 4 * table_size, without gap or overlap, for any number of ranks |
| UpdateStream.RankUpdatesAll | performance/multi-node/random_access.c:839-861 | complete streams of all ranks act on every entry like the whole serial stream |
| UpdateStream.RankUpdatesStep | performance/multi-node/random_access.c:713-726 | one more update of one rank adds just that update, wherever the other ranks are in their streams |
| RandomAccess.StepPreserves | performance/multi-node/random_access.c:699-729 | every step of every rank keeps the invariant that each entry is its index XORed with the updates applied so far in both passes |
| RandomAccess.DistributedRefinesSerial | performance/multi-node/random_access.c:857-867 | after one pass, under every interleaving, the blocks in rank order are the serial table after 4 * table_size updates |
| RandomAccess.UpdatesOnlyBetween | performance/multi-node/random_access.c:709-728 | while any rank may still update, all ranks have filled their tables and none has begun to check |
| RandomAccess.AllRestored | performance/multi-node/random_access.c:890-897 | once some rank checks, both passes have cancelled out in every entry of every rank |
| RandomAccess.VerificationFindsNoError | performance/multi-node/random_access.c:890-897 | in every reachable state of every run no rank has counted an error |
| RandomAccess.CheckCounts | performance/multi-node/random_access.c:893-897 | from any tables whatever, a rank that checks its block counts exactly its wrong entries, and none if and only if the block is restored: the check would notice any damage |
| RandomAccess.SomeRankEnabled | performance/multi-node/random_access.c:709-728 | no reachable state deadlocks before all ranks have finished |
| RandomAccess.RunEnds | performance/multi-node/random_access.c:858-903 | under any schedule at most a fixed number of steps take effect, and all ranks have finished exactly when that many have |
| RandomAccess.StepsInAll | performance/multi-node/random_access.c:858-903 | a rank fills and checks each entry once, makes four updates for each in each of two passes, and passes nine barriers |
| RandomAccess.FairRunFinishes | performance/multi-node/random_access.c:858-903 | a schedule that starves no rank, and is long enough, takes every rank to the end |
| RandomAccess.TurnsAreFair | performance/multi-node/random_access.c:858-903 | taking turns is such a schedule |
| RandomAccess.PassesThrough | performance/multi-node/random_access.c:865-882 | a run that takes all ranks past the first pass goes through a state with all of them between the passes |
| RandomAccess.FinishedRunRefines | performance/multi-node/random_access.c:857-897 | every run that finishes holds the serial table at some moment on the way, and at its end the initial tables and no error |
| Cluster.Machine.constructor | performance/multi-node/random_access.c:793 | freshly allocated tables are an initial state of the transition system, whatever they contain |
| Cluster.Machine.Store | performance/multi-node/random_access.c:415-438 | a store changes one entry of one rank's array and nothing else |
| Cluster.Machine.Barrier | performance/multi-node/random_access.c:709 | entering and leaving a barrier in memory is the step of the transition system; the first one also computes the seed by jump-ahead |
| Cluster.Machine.DoItem | performance/multi-node/random_access.c:713-726 | the in-place fill, remote XOR and check are the steps of the transition system |
| Cluster.Machine.Tick | performance/multi-node/random_access.c:731-903 | each step in memory refines the abstract step and keeps the invariant |
| Cluster.Machine.Execute | performance/multi-node/random_access.c:731-903 | every interleaving in memory ends in the state of the abstract run |
| Cluster.RunPasses | performance/multi-node/random_access.c:857-897 | the passes and the check in memory are the run of the given schedule; a fair one finishes, and then every table holds its global indices again |
| Cluster.SumErrors | performance/multi-node/random_access.c:901-902 | each rank that completes the gather of the error counts reports exactly their sum; under a fair schedule all ranks do |
| Cluster.RunBenchmark | performance/multi-node/random_access.c:857-903 | a fair schedule finishes the benchmark; then every table holds its global indices again and each rank's own reduction of the error counts is 0 |
| ThreadBarrier.StepPreserves | include/ct_tbarrier.h:48-73 | every atomic operation of every thread keeps the invariant relating rounds, counters, signals and private phases |
| ThreadBarrier.BarrierSafety | include/ct_tbarrier.h:48-73 | in every run no thread has left its k-th call unless all threads have entered theirs; rounds differ by at most one |
| ThreadBarrier.SpinSeesRelease | include/ct_tbarrier.h:65-67 | a waiter's exit test is true if and only if its round has been released: no flip is missed and none is seen early |
| ThreadBarrier.ResetLosesNothing | include/ct_tbarrier.h:60-61 | when the counter is reset it holds exactly the arrivals of that round and every thread is in that round |
| ThreadBarrier.ElectionPreserves | include/ct_tbarrier.h:53-64 | elections and released rounds stay in step: a second last arriver in a round is impossible |
| ThreadBarrier.ElectedOncePerRound | include/ct_tbarrier.h:53-64 | in every run a round that some thread has completed has had its one last arriver, and a round that some thread has not entered has had none |
| ThreadBarrier.SomeThreadEnabled | include/ct_tbarrier.h:53-71 | while a thread has calls left or is inside one, some operation changes the state |
| ThreadBarrier.StepAdvances | include/ct_tbarrier.h:53-71 | every operation that changes the state strictly raises the measure |
| ThreadBarrier.RunEnds | include/ct_tbarrier.h:53-71 | in any schedule of n threads making k calls each, at most 5 * k * n operations change the state |
| ThreadBarrier.FairRunFinishes | include/ct_tbarrier.h:53-71 | from any reachable state, more than 5 * k * n blocks that each name every thread take all threads through all their calls |
| ThreadBarrier.FairRunEnds | include/ct_tbarrier.h:53-71 | so every fair run from freshly initialised threads ends with all k calls of all n threads completed |
| ThreadBarrier.StateAfterCalls | include/ct_tbarrier.h:70-71 | after k calls by all threads the counters are 0 and signals, phases and slots depend on k alone |
| ThreadBarrier.StateAfterSpawns | performance/multi-node/rdm_one_sided.c:660-694 | after m spawns of two calls each, slots are 0, phases and signals are m mod 2, counters are 0: the state is valid for the next spawn |
| BarrierMachine.Barrier.constructor | include/ct_tbarrier.h:75-85 | the initialisation routine on zeroed words establishes the initial state |
| BarrierMachine.Barrier.Tick | include/ct_tbarrier.h:48-73 | each operation in memory is the step of the transition system |
| BarrierMachine.Barrier.Execute | performance/multi-node/rdm_one_sided.c:475-528 | every interleaving in memory ends in the state of the abstract run, with its election count |
| BarrierMachine.SpawnLoop | performance/multi-node/rdm_one_sided.c:643-694 | one initialisation and one spawn per size in memory: every fair spawn ends, and leaves slots 0, counters 0 and phases and signals at the number of spawns mod 2 for the next |
| BarrierMachine.TurnsAreFair | performance/multi-node/rdm_one_sided.c:683-691 | letting all threads take turns is a fair spawn |
| BarrierMachine.BytesSent | performance/multi-node/rdm_one_sided.c:480-497 | the byte count of a sender covers exactly the measured iterations, and every write is awaited |
| Codec.EncodeAt | common/ct_utils.c:75-78 | byte i becomes the letters 97 + b mod 16 and 97 + b div 16, at positions 2i and 2i + 1 |
| Codec.DecodeEncode | common/ct_utils.c:67-102 | decoding an encoding gives the bytes back, for all byte strings |
| Codec.EncodeHasNoNul | common/ct_utils.c:75-80 | an encoding is a C string: its length is not cut short by a zero byte |
| Codec.EncodeInjective | common/ct_utils.c:67-83 | different byte strings have different encodings |
| Codec.EncodeBuffer | common/ct_utils.c:67-83 | the loop fills a buffer with the encoding, digit by digit in numbers, and its terminator |
| Codec.DecodeBuffer | common/ct_utils.c:85-102 | the loop turns every pair of letters up to the terminator into 16 times the high digit plus the low one, and the reported length is the encoded one |
| Codec.CopyInBounds | common/ct_utils.c:150 | the copy stays inside the decoded bytes if and only if no more is asked for than was sent, or nothing was sent |
| Codec.Receive | common/ct_utils.c:128-154 | of a value that fits its buffer exactly the bytes sent arrive and nothing else changes, if and only if as many were sent as asked for, or none; otherwise the copy would run past the decoded bytes |
| Keys.KeyInjective | common/ct_utils.c:112 | equal key strings mean equal kind, call number and rank |
| Keys.KeyReads | common/ct_utils.c:112-181 | a key consists of the operation's name, the decimal number of the call, the separator and the decimal number of the rank |
| Keys.DecimalReads | common/ct_utils.c:112 | the digits of a number denote it, without a leading zero |
| Keys.KeyFits | common/ct_utils.c:107-112 | for int counters and ranks no key is truncated by its 64-byte buffer |
| Collectives.StepPreserves | common/ct_utils.c:156-194 | every step of every rank keeps the invariant of keys, barriers and collected blocks |
| Collectives.PublishPreserves | common/ct_utils.c:113-122 | a committed value may become visible at any time from its put to the barrier |
| Collectives.CollectivesDeliver | common/ct_utils.c:156-194 | in every run of any sequence of gathers and broadcasts each completed gather leaves the concatenation by rank and each completed broadcast rank 0's bytes, and no put or get fails, although faster ranks have already put data for later calls |
| Collectives.KeyIsFresh | common/ct_utils.c:163-181 | a key about to be put is neither in the store nor pending: every key is put at most once |
| Collectives.KeyOfInjective | common/ct_utils.c:163-181 | contributions of different calls or ranks have different keys |
| Collectives.Readable | common/ct_utils.c:165-170 | past the barrier every contribution of the call is in the store and decodes to what was passed |
| Collectives.SameBarriers | common/ct_utils.c:183-191 | ranks at the same point have entered the same number of barriers, whatever their roles in the broadcasts |
| Collectives.BroadcastReachedAll | common/ct_utils.c:183-191 | when one rank has left a broadcast every rank holds rank 0's bytes, which is what the second barrier is for |
| Collectives.GatherReachedAll | common/ct_utils.c:164-165 | when one rank has left a gather every rank has contributed to it |
| Collectives.SomeRankEnabled | common/ct_utils.c:156-194 | while some rank has calls left, some rank can step |
| Collectives.StepAdvances | common/ct_utils.c:156-194 | an enabled step moves its rank strictly forward and leaves the others alone |
| Collectives.RunEnds | common/ct_utils.c:156-194 | in every run the number of actions that change anything is bounded by the calls and the ranks |
| Collectives.FairRunCompletes | common/ct_utils.c:156-194 | when no rank is starved every rank completes all its calls |
| Collectives.TurnsAreFair | common/ct_utils.c:156-194 | a schedule that starves nobody exists for any number of calls and ranks |
| Collectives.ConcatBlock | common/ct_utils.c:168-171 | block i of a gathered buffer, at offset i * len, is what rank i passed |
| CollectiveMachine.Job.constructor | common/ct_utils.c:158-178 | zeroed counters and an empty store are the initial state |
| CollectiveMachine.Job.MakeVisible | common/ct_utils.c:122 | a committed value becomes visible by one store, as in the transition system |
| CollectiveMachine.Job.Contribute | common/ct_utils.c:104-126 | counting the call, naming the key and putting the encoded value are the protocol's first step |
| CollectiveMachine.Job.Fetch | common/ct_utils.c:128-171 | one receive in memory is the protocol's collecting step |
| CollectiveMachine.Job.Tick | common/ct_utils.c:156-194 | each step in memory is the step of the transition system |
| CollectiveMachine.Job.Execute | common/ct_utils.c:156-194 | every interleaving in memory ends in the state of the abstract run |
| CollectiveMachine.Perform | common/ct_utils.c:156-194 | from an empty store, under every interleaving, each rank's completed calls have left what they promise in its buffers, and under a fair one every rank completes every call |
| RankOrder.BlocksDetermine | common/ct_utils.c:250-252 | a buffer whose blocks are right is the concatenation in rank order |
| RankOrder.Gatherer.Allgather | common/ct_utils.c:220-255 | whatever fixed order the underlying gather uses, the gather of the rank numbers reveals it and rank r's block ends at position r, on the first call and on later ones |
| RankOrder.FallbackOrder | common/ct_utils.c:168-171 | rank order, which the fallback gather uses, is one of the orders allowed and changes nothing |
| Reduction.Allreduce | include/ct_utils.h:221-223 | the loop folds the blocks of the rank's own buffer, for any operator and value representation |
| Reduction.EveryRankReduces | include/ct_utils.h:209-230 | in every run of any collectives, each rank that has completed the gather and folds its own buffer gets the fold of all ranks' values in rank order |
| RankOrder.FoldInOrder | include/ct_utils.h:221-223 | the fold takes every value once and in rank order: folding one-element lists by concatenation lists all values |
| Reduction.FoldAdds | include/ct_utils.h:221-223 | the fold with addition is the sum |
| Reduction.GatherAndReduce | include/ct_utils.h:219-223 | the same through the rank-order correction, whatever order the underlying gather uses |
| Reduction.BytesRoundTrip | include/ct_utils.h:216-219 | a non-negative integer survives its representation in the gathered bytes |
| Reduction.EveryRankSums | include/ct_utils.h:209-230 | in every run every rank's result is the sum of all contributions, and positive if and only if one of them is |
| RankOrder.SumPositive | include/ct_utils.h:221-223 | a sum of non-negative contributions is positive if and only if one of them is |
| Reduction.AbortAgreed | performance/multi-node/random_access.c:792-811 | in every run any two ranks that have reduced the flags take the same side of the abort test, and they abort if and only if some allocation failed; no rank's int overflows |
| WindowProtocol.NextPreserves | performance/multi-node/rdm_mbw_mr.c:492-598 | every step of a sender, receiver or idle rank and every network event keeps the books of each pair balanced |
| WindowProtocol.PairInLockstep | performance/multi-node/rdm_mbw_mr.c:497-596 | a pair's iterations differ by at most one, and at most one window is unacknowledged |
| WindowProtocol.ResetLosesNothing | performance/multi-node/rdm_mbw_mr.c:533-542 | when a counter wait succeeds the counter holds exactly what was awaited and nothing is outstanding that could complete before the reset |
| WindowProtocol.PairBalanced | performance/multi-node/rdm_mbw_mr.c:497-596 | a finished pair has exchanged loop + skip windows of window (times vectors, for single sends) messages, one acknowledgement each, all matched and completed, and left no completion unread |
| WindowProtocol.SameBarriers | performance/multi-node/rdm_mbw_mr.c:492-598 | every rank that returns, in any of the three roles, has passed two barriers, and so has everybody else |
| WindowProtocol.BarriersSeparate | performance/multi-node/rdm_mbw_mr.c:492-553 | no rank begins its first window before all ranks have entered the call, nor its first measured window before all pairs have done their warm-up |
| WindowProtocol.NoDeadlock | performance/multi-node/rdm_mbw_mr.c:492-598 | a state in which nothing can move, even if sends complete only after they are matched, is one in which all ranks have finished |
| WindowProtocol.StuckIffFinished | performance/multi-node/rdm_mbw_mr.c:492-598 | nothing can move if and only if all ranks have finished |
| WindowProtocol.EveryRun | performance/multi-node/rdm_mbw_mr.c:492-598 | the lockstep, progress and balance properties for every interleaving of ranks and network from the start of the call |
| WindowProtocol.SenderAdvances | performance/multi-node/rdm_mbw_mr.c:494-543 | every sender step that does anything moves it strictly forward |
| WindowProtocol.ReceiverAdvances | performance/multi-node/rdm_mbw_mr.c:547-595 | every receiver step that does anything moves it strictly forward |
| WindowProtocol.PositionBounded | performance/multi-node/rdm_mbw_mr.c:497-596 | no rank can move forward for ever |
| WindowProtocol.TrafficBounded | performance/multi-node/rdm_mbw_mr.c:497-596 | nor can the network: traffic is bounded by the iterations and every event uses some of it up |
| WindowProgress.RunEnds | performance/multi-node/rdm_mbw_mr.c:492-598 | in every run the number of actions of all ranks, idle ones included, and of the network that change anything is bounded |
| WindowProgress.FairRunFinishes | performance/multi-node/rdm_mbw_mr.c:492-598 | when no rank and no network event is starved every rank returns |
| WindowProgress.TurnsAreFair | performance/multi-node/rdm_mbw_mr.c:492-598 | a schedule that starves nobody exists for any call |
| WindowMachine.Job.constructor | performance/multi-node/rdm_mbw_mr.c:448-492 | fresh counters are the initial state |
| WindowMachine.Job.Send | performance/multi-node/rdm_mbw_mr.c:494-543 | each sender step in memory is the step of the transition system |
| WindowMachine.Job.Receive | performance/multi-node/rdm_mbw_mr.c:547-595 | each receiver step in memory is the step of the transition system |
| WindowMachine.Job.Act | performance/multi-node/rdm_mbw_mr.c:492-598 | so is every step of any rank or of the network |
| WindowMachine.Job.Execute | performance/multi-node/rdm_mbw_mr.c:492-598 | every interleaving in memory ends in the state of the abstract run |
| WindowMachine.CalcBw | performance/multi-node/rdm_mbw_mr.c:448-598 | from fresh counters in memory, the run of the given schedule: lockstep always, all ranks return if it is fair, and then every pair has exchanged its loop + skip windows and no counter holds an unread completion |
| WindowTraffic.PostSends | performance/multi-node/rdm_mbw_mr.c:503-531 | the sender's posting loops post, for each of the four transfer types, vector j of entry i as message i * vectors + j, or window messages of the total or of the buffer's length |
| WindowTraffic.PostReceives | performance/multi-node/rdm_mbw_mr.c:555-583 | the receiver's posting loops post the capacities likewise |
| WindowTraffic.WindowMatches | performance/multi-node/rdm_mbw_mr.c:890-897 | with the buffers of a call, every message of a window meets a receive of exactly its size, the count is what both sides await, and the bytes are window * vectors * size, as in the bandwidth formula |
| WindowTraffic.MatchedSizes | performance/multi-node/rdm_mbw_mr.c:503-583 | in every run and across windows, the k-th message and the k-th receive that are matched were posted with the same size |
| WindowTraffic.Completions.Wait | performance/multi-node/rdm_mbw_mr.c:172-222 | the polling loop and the reset compute the wait relation of the protocol, and say for any arrival pattern exactly when a queue wait and a counter wait succeed |
| WindowTraffic.QueueWaitConserves | performance/multi-node/rdm_mbw_mr.c:180-199 | a queue wait consumes exactly what was asked for and never drops a completion |
| WindowTraffic.QueueWaitSucceeds | performance/multi-node/rdm_mbw_mr.c:180-188 | a queue wait succeeds if and only if completions arrive in time for one to be read at each poll and one poll is left to notice it |
| WindowTraffic.CounterWaitSucceeds | performance/multi-node/rdm_mbw_mr.c:202-208 | a counter wait succeeds if and only if some poll finds enough completions |
| WindowTraffic.CallIsValid | performance/multi-node/rdm_mbw_mr.c:457-490 | the loop counts chosen for any window and size have at least one measured iteration, as the protocol theorems need |
| WindowTraffic.RoundsFillWindow | performance/multi-node/rdm_mbw_mr.c:457-490 | small windows are repeated up to, and never beyond, the entries of 100 windows of 64, or 20 above 8192 bytes; larger windows are not; the warm-up is a tenth |
| CsvText.ConvertKeepsMarks | common/ct_print_utils.c:224-236 | in any text no space, tab, vertical tab, form feed or carriage return is left, and every other byte is kept in order with only commas inserted |
| CsvText.ConvertConcat | common/ct_print_utils.c:224-236 | converting two pieces separately gives the conversion of the whole unless the cut splits a run of spaces |
| CsvText.ConvertLines | common/ct_print_utils.c:215-251 | for newline-terminated lines, conversion line by line is conversion of the whole table |
| CsvText.RowIsCommaSeparated | common/ct_print_utils.c:224-236 | a row of words separated by runs of blanks becomes the words with exactly one comma per run |
| CsvText.LineIsCommaSeparated | common/ct_print_utils.c:224-236 | blanks before the newline disappear |
| CsvWriter.GrowBuf | common/ct_print_utils.c:110-124 | growing doubles the size and keeps the contents if and only if there is memory and the new size is at most 2^30 |
| CsvWriter.Info.MakeRoom | common/ct_print_utils.c:186-211 | a line that fills the room exactly doubles the buffer, or failing that flushes it, or with nothing to flush aborts, and no text is lost; it overruns if and only if the line exceeds the room left |
| CsvWriter.Info.ConvertLine | common/ct_print_utils.c:215-251 | wherever growth or flushing splits the line, the CSV text gains its one-shot conversion; the nested loops end |
| CsvWriter.Info.AddLine | common/ct_print_utils.c:181-252 | the table gains the line and the CSV text its conversion, or nothing changes and the outcome says why |
| CsvWriter.Info.Finish | common/ct_print_utils.c:286-298 | what both buffers still hold is written out, exactly once |
| CsvWriter.Report | common/ct_print_utils.c:181-298 | a whole report writes exactly its lines and their conversions; one shorter than the initial buffer always succeeds |
| CsvWriter.SecondLineOverruns | common/ct_print_utils.c:191 | two lines that each fit an empty buffer, but not together, always overrun it |

## Left out

- Fabric setup and teardown, memory registration, address exchange and error reporting: foreign calls. A remote atomic with its completion is one atomic XOR; sends and receives are a reliable channel that is first in, first out for each pair.
- PMI itself: a rank, a size, a counting barrier and a key-value store whose committed puts are visible at the latest after the next barrier. Loading of the library, abort and exit are not modelled.
- Timing, bandwidth and latency figures, and all floating-point reporting. The halving of the total memory is over real numbers, where halving is exact.
- `performance/multi-node/auth_key_test.c`, `performance/multi-node/rdm_pingpong.c`, the single-node benchmarks, `contrib/buddy_test.c` and the scripts: they repeat the plumbing, or contain only easier protocols.
- Option parsing.
- RandomAccess.DistributedRefinesSerial, RandomAccess.VerificationFindsNoError: for tables of at most 2^61 words, so that four times the table size fits in 64 bits, and blocks of at most 2^31 words, the exact bound for the index arithmetic.
- RandomAccess: one step of the transition system is one loop iteration; the private arithmetic of an iteration and its remote XOR are not interleaved further, because only the XOR touches shared memory.
- Lfsr: words are sequences of 64 bits rather than machine integers; `BitVectors` relates the two for the operations it uses.
- ThreadBarrier: the operations are sequentially consistent, as the default C11 atomics are (section 7.17.3 of ISO/IEC 9899:2011).
- BarrierMachine.Barrier: the private record of a thread is stored whole; its field updates within one step are not separate stores.
- BarrierMachine.BytesSent: the transfers of `thread_fn` between its two barrier calls are represented by their counts alone; the final handshake of the two processes is not modelled.
- CollectiveMachine.Job: a rank's record is a value that is replaced whole, so aliasing between a caller's buffers is not modelled; `Codec` and `RankOrder` do the buffer work in place.
- Codec.Receive: what the key-value store does with a value longer than the receiver's buffer is not part of this model.
- Reduction.EveryRankSums, Reduction.AbortAgreed: for non-negative contributions, as both callers pass; the byte order of the integers is fixed, and the result does not depend on it.
- Collectives: a call counter does not wrap around; after 2^31 calls of one kind the C counter would.
- Collectives: all ranks make the same sequence of calls with equal lengths, as the callers do.
- WindowProtocol: the reading and the reset of a counter are one step, which `WindowProtocol.ResetLosesNothing` justifies. A failed wait is not modelled.
- WindowProtocol: the buffers' contents are not modelled, only counts and sizes.
- CsvWriter.Info.AddLine: formatting is left out, a line is its formatted text; writes are complete and do not fail; the text of an overrun, which C leaves undefined, is not modelled beyond its detection.
- CsvWriter.GrowBuf: doubling a 2^30-byte buffer overflows a C int; the model fails there, as an allocation of that size would.
- CsvWriter: `ct_print_data`, which writes the buffers without emptying them, and opening the files. Without a CSV path the descriptor stays 0 and is treated as open; the model takes the choice as a parameter.
