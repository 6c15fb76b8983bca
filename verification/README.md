# Verified models of the gem5 support library

This project models the stateful cores of gem5's support library (the directory
`gemdroid.src/base`) and the operand code generator of its ISA parser, and proves
what holds of them over every input and every run.

| file | what it models |
|---|---|
| `basics.dfy`, `bit_numbers.dfy` | an option type, powers of two, and bits of numbers |
| `words.dfy` | machine words as bit sequences: masks, shifts, and their meaning as prefixes |
| `trie_graph.dfy`, `trie.dfy` | the path-compressed prefix trie with parent links, rewired in place |
| `barrier.dfy` | the generation barrier as a step system over n threads |
| `histogram_model.dfy`, `histogram.dfy` | the self-rescaling histogram: its meaning, and the loops that fold buckets in place |
| `annotate_names.dfy`, `annotate_queue.dfy`, `annotate_trace.dfy` | parts of the critical-path annotator as values: interning tables, byte queues, an ordered trace with records held back |
| `annotate_model.dfy`, `annotate_runs.dfy` | the annotator's calls as steps from state to state, and what holds of every run of them |
| `annotate_stacks.dfy` | which machines run after any run, against plain lists of names, and when a call stops |
| `cp_annotate.dfy`, `annotate_replay.dfy` | the annotator as a class that works in place, each method and then every run proved to take the model's steps |
| `random_mt.dfy`, `random_reference.dfy` | MT19937: block regeneration in place against the defining recurrence, the tempering, and all of it against the engine of section 26.5.3.2 of ISO C++11 in plain numbers |
| `addr_range.dfy`, `addr_range_map.dfy`, `addr_map_runs.dfy` | interleaved address ranges, the map that searches them, and maps built by any list of insertions |
| `isa_operands.dfy` | numbering of operands, the code emitted for them as a small syntax tree, and an interpreter for it |
| `remote_gdb.dfy` | packet framing of the GDB remote serial protocol (Appendix E.1 of the GDB manual) and hexadecimal memory text |
| `circlebuf.dfy` | the console ring buffer against the history of what was written |
| `strings.dfy` | splitting strings, and reading unsigned numbers |

`dafny verify dfyconfig.toml` checks everything.

State that the source changes in place is a class with the same fields here; each
method is proved against a specification function or states the property outright,
and the laws are proved about those functions and about the classes' invariants.
Expressions and builders are functions. Where the source asserts, panics or calls
`fatal`, a method either returns a failure, with the exact condition, or the
assertion is proved never to fail.

## Where the code and the expected law disagree

- Histogram: with an odd number of buckets `grow_convert` drops bucket 0, so the bucket sum equals `samples` for all runs exactly when the bucket count is even (`HistogramModel.ConservesIffEven`, with the failing run in `OddRunLoses`). `GrowLoses` says what each grow operation loses: `grow_convert` the lowest bucket for odd counts, `grow_out` the lowest bucket for counts that are 3 modulo 4.
- Address map, search: `find` is right for every address exactly when no entry but the first contains its own start address under a non-zero match (`AddrRangeMaps.LookupRightIff`), which holds when chunks start with zero interleave bits; `StartMissed` gives a map where it fails.
- Address map, insertion: `insert` keeps the entries disjoint exactly when the new range is clear of its predecessor and of its successor (`InsertKeepsDisjointIff`). The search before an insertion looks at the successor only when there is no predecessor (`OverlapAccepted` gives an overlap that is accepted), and a one-address range inside an interleaved predecessor's bounds passes when it lies in another stripe (`OneAddressAccepted`, after which `find` misses an address that the map holds).
- Address map, insertion and search: even a clear insertion can make `find` wrong, since the first entry is found at its start under any match and later ones are not. It leaves `find` right for every address exactly when the new range is reachable or comes first, and the entry that was first is reachable or stays first (`InsertKeepsRightIff`, with the failing input in `FirstMissedLater`). With aligned ranges that lie apart it is right after every list of insertions (`AddrMapRuns.SearchIsScan`).
- Address map, refusals: a range that lies apart from all entries is accepted exactly when it is not interleaved, or every interleaved entry that the search comes past is a stripe of its own chunk and, for a stripe of one address, does not contain its start (`AddrMapRuns.ApartAcceptedIff`). So a second chunk can make the intersection test panic (`TwoChunksPanic`), and a second stripe of one address can be refused (`OneAddressStripeRefused`); lists with one chunk and no such stripes are taken in whole (`AllTaken`).
- Merging stripes: the result is the union of the stripes exactly where the stripe number fits the 8-bit match field (`AddrRanges.MergedIsUnion`); with 512 stripes address 256 is lost (`StripeLost`).
- Operand code: the counts of stored registers are signed 8-bit numbers and index the arrays, so the generated code reads and writes the right registers exactly when at most 128 sources and 128 destinations are stored (`IsaOperands.ReadsAgreeIff`, `WritesAgreeIff`, `GeneratedCodeIff`); 129 sources fail (`TooManySources`).
- GDB checksum: a second checksum character that is no digit counts as -1, so some wrong checksums pass (`RemoteGdb.ChecksExactly`); a packet gets through exactly when an even number of its bytes have bit 7 set, and always loses those bits (`RemoteGdb.SentIsReceived`; `HighByteRefused` gives one that does not).
- GDB sequence marks: `recv` takes the mark off by copying the payload down, but not its terminator, so the payload is terminated exactly when the third byte from its end is 0 (`RemoteGdb.RestTerminatedIff`). A payload of less than two bytes is taken for a sequenced one exactly when the buffer holds a colon left over from before (`ShortPacketIff`).
- Ending a state machine that is not the last on its stack records a begin for the machine that ended. It names the machine now on top exactly when the two top entries of the stack were equal (`AnnotateModel.BeginAfterEnd`); a begin, another begin and an end make a run where it does not (`AnnotateRuns.WrongBeginRecorded`).

## Model

| member | source | states |
|---|---|---|
| `Words.ExtendMaskAddsOneBit` | gemdroid.src/base/trie.hh:143-149 | extending a mask turns the mask of c bits into the mask of c + 1 bits |
| `Words.WidthMaskIsMask` | gemdroid.src/base/trie.hh:188-193 | the mask computed from a width covers exactly that many leading bits, widths beyond the word being clipped |
| `Words.EqualUnderMask` | gemdroid.src/base/trie.hh:50-54 | keys agree under a mask exactly when they agree on its leading bits |
| `Words.MaskTestComparesWidths` | gemdroid.src/base/trie.hh:124-131 | one mask contains another exactly when it is at least as wide, and equal masks have equal widths |
| `TrieGraphs.MatchesIsPrefix` | gemdroid.src/base/trie.hh:50-54 | a node matches a key exactly when its prefix is a prefix of the key |
| `TrieGraphs.AddLeafKeepsLinks` | gemdroid.src/base/trie.hh:209-216 | hanging a leaf in a free slot keeps kid and parent links inverse, masks growing downwards, and sibling kids parted at the next bit |
| `TrieGraphs.InsertAboveKeepsLinks` | gemdroid.src/base/trie.hh:232-243 | putting a node between a parent and its kid keeps the same shape |
| `TrieGraphs.SpliceKeepsLinks` | gemdroid.src/base/trie.hh:287-313 | taking out a node with at most one kid keeps the same shape, kids[1] still implying kids[0] |
| `Tries.Trie.LookupHandle` | gemdroid.src/base/trie.hh:158-175 | finds the node of the shortest stored prefix of the key, or none when no stored prefix matches |
| `Tries.Trie.Lookup` | gemdroid.src/base/trie.hh:267-274 | gives the value of the shortest stored prefix of the key, nothing exactly when no stored prefix matches |
| `Tries.FirstBoundIs` | gemdroid.src/base/trie.hh:158-175 | the reference search finds the shortest stored prefix of the key |
| `Tries.NothingBound` | gemdroid.src/base/trie.hh:158-175 | the reference search fails only when no prefix of the key is stored |
| `Tries.Trie.GoesAfterMeaning` | gemdroid.src/base/trie.hh:124-133 | the descent test holds exactly when the kid's prefix is a prefix of the new one |
| `Tries.Trie.FindSpot` | gemdroid.src/base/trie.hh:195-199 | the descent ends at the deepest node whose prefix is a prefix of the new one |
| `Tries.Trie.WalkLeg` | gemdroid.src/base/trie.hh:222-231 | the mask grows as long as both keys agree, up to the new width, and stops at the first differing bit |
| `Tries.Trie.ChooseLeg` | gemdroid.src/base/trie.hh:207-258 | one of the two legs is always chosen, so the panic at the end of the loop is unreachable |
| `Tries.Trie.Insert` | gemdroid.src/base/trie.hh:185-260 | adds exactly the binding of the clipped prefix, keeps the shape and returns a handle for it |
| `Tries.Trie.CutOut` | gemdroid.src/base/trie.hh:283-313 | a node with at most one kid is taken out, its kid moving up; all bindings stay |
| `Tries.Trie.Remove` | gemdroid.src/base/trie.hh:282-320 | removes exactly the binding of the handle, returns its value, and takes out at most the node and its parent, so the recursion fires at most once and the panic on the parent link is unreachable |
| `Tries.Trie.RemoveKey` | gemdroid.src/base/trie.hh:326-333 | removes the shortest stored prefix of the key and returns its value, or does nothing when none matches |
| `Tries.Replay` | gemdroid.src/base/trie.hh:158-333 | over every sequence of inserts, lookups, removals by key and removals through a handle an insert returned, the answers are those of a plain map of prefixes |
| `Barriers.RunKeepsInv` | gemdroid.src/base/barrier.hh:59-79 | every interleaving, with any spurious wake-ups, keeps the invariant tying counters to the calls begun and finished |
| `Barriers.ArrivalsAccounted` | gemdroid.src/base/barrier.hh:64-79 | arrivals = n * completed rounds + (n - numLeft) |
| `Barriers.NobodyLeavesEarly` | gemdroid.src/base/barrier.hh:64-79 | when a thread finishes its k-th call, every thread has begun its k-th |
| `Barriers.TestIsExact` | gemdroid.src/base/barrier.hh:74-77 | the generation test tells exactly whether the round is over, also when the counter wraps |
| `Barriers.SleepersAreCurrent` | gemdroid.src/base/barrier.hh:74-77 | a sleeping thread waits for the round under way: no wake-up is lost |
| `Barriers.NoDeadlock` | gemdroid.src/base/barrier.hh:64-79 | in every reachable state some thread can enter or leave without a spurious wake-up |
| `Barriers.OneWinnerPerRound` | gemdroid.src/base/barrier.hh:68-72 | of the calls that make up a round exactly one returns true |
| `HistogramModel.ShapeSpans` | gemdroid.src/base/statistics.hh:1547-1577 | max_bucket + bucket_size - min_bucket = size * bucket_size, and min_bucket is 0 or 2 * min_bucket = -(size - 1) * bucket_size |
| `HistogramModel.GrowKeepsShape` | gemdroid.src/base/statistics.cc:272-353 | each of the three grow operations keeps that shape |
| `HistogramModel.FitMakesRoom` | gemdroid.src/base/statistics.hh:1549-1568 | the grow loops end with the value inside the range, so the index assertion never fails |
| `HistogramModel.FitIsLeast` | gemdroid.src/base/statistics.hh:1550-1568 | growing a two-sided histogram, or making one two-sided, stops at the least size at which the sample fits |
| `HistogramModel.CountedWhereItLies` | gemdroid.src/base/statistics.hh:1570-1573 | a sample is counted in the one bucket it lies in |
| `HistogramModel.RunExplained` | gemdroid.src/base/statistics.hh:1547-1577 | in every run each bucket counts samples that lie at most half a bucket below its lower edge and below its upper edge; with an even count none is lost |
| `HistogramModel.NonNegativeRunExact` | gemdroid.src/base/statistics.hh:1547-1577 | in a run of non-negative samples bucket i holds exactly the samples with floor(v / bucket_size) = i |
| `HistogramModel.EvenRunConserves` | gemdroid.src/base/statistics.cc:272-353 | with an even count the bucket sum is always the number of samples |
| `HistogramModel.OddRunLoses` | gemdroid.src/base/statistics.cc:311-331 | with an odd count of at least 3 the run 0, -1 loses a sample |
| `HistogramModel.GrowLoses` | gemdroid.src/base/statistics.cc:272-353 | grow_up loses nothing, grow_convert the lowest bucket for odd counts, grow_out the lowest bucket for counts that are 3 modulo 4 |
| `HistogramModel.ConservesIffEven` | gemdroid.src/base/statistics.cc:311-331 | every run conserves the samples exactly when the bucket count is even |
| `HistogramModel.PowersMeet` | gemdroid.src/base/statistics.cc:367-370 | of two different powers of two the smaller can be doubled without overshooting |
| `HistogramModel.RaiseToMeets` | gemdroid.src/base/statistics.cc:367-370 | growing towards another histogram's bucket size ends with exactly that size |
| `HistogramModel.TwoSidedSizesAgree` | gemdroid.src/base/statistics.cc:355-374 | equal non-zero min_bucket values mean equal bucket sizes, so grow_up is never called on a two-sided histogram |
| `HistogramModel.MergeExplained` | gemdroid.src/base/statistics.cc:355-374 | a merge of explained histograms is explained by the samples of both |
| `HistogramModel.OneSidedIff` | gemdroid.src/base/statistics.hh:1547-1571 | a histogram is one-sided exactly as long as no sample was negative |
| `HistogramModel.RunTotals` | gemdroid.src/base/statistics.hh:1573-1576 | sum, squares and samples are those of the samples, whatever was folded |
| `HistogramModel.RunTight` | gemdroid.src/base/statistics.hh:1556-1568 | the bucket size of a one-sided run is tight: all samples lie below size * bucket_size, and half the bucket size would not do |
| `HistogramModel.TightIsUnique` | gemdroid.src/base/statistics.hh:1556-1568 | only one power of two is tight for given samples |
| `HistogramModel.RunWideTight` | gemdroid.src/base/statistics.hh:1547-1568 | after every run with a negative sample the bucket size is the least that holds all samples between the symmetric edges, from twice the one-sided size before that sample on |
| `HistogramModel.WideTightIsUnique` | gemdroid.src/base/statistics.hh:1547-1568 | only one power of two is that |
| `HistogramModel.MergedRunsExact` | gemdroid.src/base/statistics.cc:355-374 | merging two one-sided histograms gives exactly the histogram of the combined samples: buckets, edges, bucket size, sum, squares and samples |
| `HistogramModel.RealSampleBucket` | gemdroid.src/base/statistics.hh:1549-1571 | for a real sample value the tests and the bucket are those of its integer part |
| `Histograms.HistStor.Reset` | gemdroid.src/base/statistics.hh:1623-1639 | leaves an empty histogram with buckets of size 1 from 0 |
| `Histograms.HistStor.GrowUp` | gemdroid.src/base/statistics.cc:333-353 | the in-place loops merge buckets 2i and 2i + 1 into i, for all i, and clear the rest |
| `Histograms.HistStor.GrowConvert` | gemdroid.src/base/statistics.cc:311-331 | the in-place loops fold a one-sided histogram into its upper half and move the lower edge |
| `Histograms.HistStor.GrowOut` | gemdroid.src/base/statistics.cc:272-309 | the in-place loops fold a two-sided histogram towards its middle |
| `Histograms.HistStor.Sample` | gemdroid.src/base/statistics.hh:1547-1577 | makes room and counts the sample: the new state is the specified one |
| `Histograms.HistStor.Add` | gemdroid.src/base/statistics.cc:355-374 | merges another histogram: the new state is the specified merge |
| `Histograms.Record` | gemdroid.src/base/statistics.hh:1547-1577 | a run of the class gives the histogram of the specified run |
| `Histograms.RecordApart` | gemdroid.src/base/statistics.cc:355-374 | two objects fed non-negative samples apart and then added hold what one object fed all of them would |
| `AnnotateNames.InternedBothWays` | gemdroid.src/base/cp_annotate.hh:283-295 | a cache entry k for (sys, id) exists exactly when row k of the table is (sys, id) |
| `AnnotateNames.InternNew` | gemdroid.src/base/cp_annotate.hh:289-293 | a new entry with the next number keeps caches and table inverse |
| `AnnotateNames.WithSys` | gemdroid.src/base/cp_annotate.hh:323-341 | systems are numbered from 1 in order of appearance, all tables stay in step and earlier numbers keep their meaning |
| `AnnotateNames.WithSm` | gemdroid.src/base/cp_annotate.hh:283-295 | a machine gets the number whose row it is, the old one if there is one; earlier numbers keep their meaning; fails exactly when a new number would reach 65535 |
| `AnnotateNames.WithQ` | gemdroid.src/base/cp_annotate.hh:345-360 | the same for queues |
| `AnnotateNames.NumbersAreDense` | gemdroid.src/base/cp_annotate.hh:283-360 | what is new gets the next number and nothing else gets one |
| `AnnotateNames.WithSt` | gemdroid.src/base/cp_annotate.hh:299-320 | a state gets its number among the states of its machine name, and earlier numbers keep their meaning |
| `AnnotateQueues.TakeFrontBytes` | gemdroid.src/base/cp_annotate.cc:1024-1046 | a dequeue removes exactly the first count bytes of the byte stream |
| `AnnotateQueues.TrimBackBytes` | gemdroid.src/base/cp_annotate.cc:634-656 | trimming removes exactly the last bytes and keeps the front of the byte stream |
| `AnnotateQueues.BytesTaken` | gemdroid.src/base/cp_annotate.cc:1024-1046 | with the counts kept in the records and shared by all queues, a dequeue drops the front of its own queue's bytes and a trim the back |
| `AnnotateQueues.BytesAdded` | gemdroid.src/base/cp_annotate.cc:968-986 | queueing a new record appends its bytes, or prepends them if asked |
| `AnnotateTrace.MadeAsAsked` | gemdroid.src/base/cp_annotate.cc:812-824 | a record is made with the fields asked for, and may be written |
| `AnnotateTrace.DumpedOk` | gemdroid.src/base/cp_annotate.cc:924-966 | a write-out keeps the order: what is written stays, is a front part of the records, and no held-back record is written unless forced |
| `AnnotateTrace.DumpedIs` | gemdroid.src/base/cp_annotate.cc:924-966 | a forced write-out writes every pending record, with all its fields; any other writes nothing below 10000 pending records and else all up to the first one held back |
| `AnnotateTrace.AddedOk` | gemdroid.src/base/cp_annotate.cc:812-836 | so does adding a record |
| `AnnotateTrace.AddedIs` | gemdroid.src/base/cp_annotate.cc:812-836 | a link sets off no write-out; any other record sets off the one that goes by the number pending with it |
| `AnnotateModel.DoQStream` | gemdroid.src/base/cp_annotate.cc:968-986 | queueing appends to its queue, or prepends if asked, and leaves every other queue alone |
| `AnnotateModel.DoDqStream` | gemdroid.src/base/cp_annotate.cc:989-1051 | a dequeue takes the first bytes of its queue, or all, and leaves every other queue alone |
| `AnnotateModel.SetSizeStream` | gemdroid.src/base/cp_annotate.cc:617-658 | resizing keeps the front of the queue and changes its back to leave max(0, size) bytes, after emptying it if asked |
| `AnnotateModel.Resolve` | gemdroid.src/base/cp_annotate.cc:211-225 | a machine that begins takes the link waiting for it: the link gets its number and may be written, and the machine is linked back; fails exactly when it is linked already |
| `AnnotateModel.StartIs` | gemdroid.src/base/cp_annotate.cc:178-225 | beginning a machine fails exactly when it would be linked twice, and otherwise gives the new stack and links, with no link left waiting for it |
| `AnnotateModel.StartRecords` | gemdroid.src/base/cp_annotate.cc:178-225 | the trace gains the link from the running machine, or the waiting link gets its target, or it is unchanged |
| `AnnotateModel.SmBeginRecords` | gemdroid.src/base/cp_annotate.cc:145-235 | beginning a machine adds exactly its link and its begin, and changes of earlier records only the target of the waiting link |
| `AnnotateModel.ReadBack` | gemdroid.src/base/cp_annotate.cc:281-282 | the number read back for a stacked machine's name and context is its own, so the assertion never fails |
| `AnnotateModel.Unwound` | gemdroid.src/base/cp_annotate.cc:284-297 | ending a machine pops it, drops its link, and adds exactly the link back and the begin |
| `AnnotateModel.BeginAfterEnd` | gemdroid.src/base/cp_annotate.cc:284-297 | the begin recorded names the machine now on top exactly when the two top entries were equal |
| `AnnotateModel.SmEnd` | gemdroid.src/base/cp_annotate.cc:250-303 | adds the records of the end exactly when the machine on top has the given name; keeps queues, numbers and announced links; stops exactly on an empty stack |
| `AnnotateModel.Hold` | gemdroid.src/base/cp_annotate.cc:802-803 | adds a link with unknown target, held back and filed under the machine it waits for |
| `AnnotateModel.AnnounceRecords` | gemdroid.src/base/cp_annotate.cc:773-810 | announcing adds the held-back link and then exactly the records of the optional end |
| `AnnotateModel.SyscallLink` | gemdroid.src/base/cp_annotate.cc:773-810 | fails exactly when a machine runs and the other is announced already; keeps all earlier records, numbers, links and queues |
| `AnnotateRuns.CallEmits` | gemdroid.src/base/cp_annotate.cc:145-836 | every call adds exactly the records it should and changes earlier ones only in the target of the announced link that it resolves |
| `AnnotateRuns.CallStreams` | gemdroid.src/base/cp_annotate.cc:411-659 | every call does to every queue what it should: appends, takes the front, changes the back or nothing |
| `AnnotateRuns.CallIsFifo` | gemdroid.src/base/cp_annotate.cc:968-1051 | bytes before and bytes queued are bytes dequeued and bytes after, in order |
| `AnnotateRuns.CallReleases` | gemdroid.src/base/cp_annotate.cc:211-225 | a record held back is let go only by the beginning of the machine it waits for, and then names that machine |
| `AnnotateRuns.TraceIsComplete` | gemdroid.src/base/cp_annotate.cc:812-966 | after every run, also a stopped one, the records written are the first ones added, in order and with their original counts; nothing added or written is ever lost |
| `AnnotateRuns.StartsEmpty` | gemdroid.src/base/cp_annotate.cc:102-131 | a run starts with nothing named, running, queued, announced or recorded |
| `AnnotateRuns.WriteAllWritesAll` | gemdroid.src/base/cp_annotate.cc:942-943 | in every run a forced write-out leaves nothing pending, each record being written in full |
| `AnnotateRuns.FatalDequeueWritesAll` | gemdroid.src/base/cp_annotate.cc:1012-1022 | a dequeue that finds too few bytes writes everything before it stops the run |
| `AnnotateRuns.RecordsOfRun` | gemdroid.src/base/cp_annotate.cc:145-836 | in every run each call adds exactly the records it should |
| `AnnotateRuns.StreamsOfRun` | gemdroid.src/base/cp_annotate.cc:411-659 | in every run each call leaves in each queue exactly the bytes it should; a dequeue takes the first ones |
| `AnnotateRuns.QueuesAreFifo` | gemdroid.src/base/cp_annotate.cc:968-1051 | over every run without resizing, for every queue: all bytes queued are all bytes dequeued followed by the bytes left, in order |
| `AnnotateRuns.WrittenLinksHaveTargets` | gemdroid.src/base/cp_annotate.cc:802-803 | in every run without a forced write-out, every link written has a real machine as target, and an announced one a machine of the awaited system and name |
| `AnnotateRuns.AnnouncedLinksWait` | gemdroid.src/base/cp_annotate.cc:802-803 | in every run without a forced write-out, a held-back link that has been written was let go, before it was written, by a call that began the machine it waited for |
| `AnnotateRuns.WrongBeginRecorded` | gemdroid.src/base/cp_annotate.cc:295-297 | a run of a begin, a begin and an end records a begin for the machine that is not on top |
| `AnnotateStacks.SmEndIs` | gemdroid.src/base/cp_annotate.cc:250-303 | an end pops the machine on top exactly when it has the given name, takes away just its link, and leaves all other stacks and states; otherwise no machine changes |
| `AnnotateStacks.SyscallLinkIs` | gemdroid.src/base/cp_annotate.cc:773-810 | announcing changes no machine, but for the end that goes with it |
| `AnnotateStacks.SmBeginIs` | gemdroid.src/base/cp_annotate.cc:145-225 | a begin puts its machine on top of its stack, with its link, and changes no other stack |
| `AnnotateStacks.SmBeginStates` | gemdroid.src/base/cp_annotate.cc:227-234 | a known state is named and remembered for the machine |
| `AnnotateStacks.LocateIs` | gemdroid.src/base/cp_annotate.cc:411-440 | a queue call acts for the machine on top, does nothing on an empty stack, and stops exactly when the queue cannot get a number |
| `AnnotateStacks.CallStops` | gemdroid.src/base/cp_annotate.cc:145-1022 | every call stops exactly when one of the source's assertions fails or bytes are missing |
| `AnnotateStacks.BeginEndRestores` | gemdroid.src/base/cp_annotate.cc:145-303 | a begin followed by its end restores every stack |
| `AnnotateStacks.CallRuns` | gemdroid.src/base/cp_annotate.cc:145-810 | every call does to the machines running in each frame of each system what it does to a plain list of names |
| `AnnotateStacks.MachinesOfRun` | gemdroid.src/base/cp_annotate.cc:145-810 | after every run the machines running in every frame of every system are those on the plain lists |
| `CpAnnotate.WriteOut` | gemdroid.src/base/cp_annotate.cc:938-959 | the loop writes the records up to the first one held back, or all |
| `CpAnnotate.Consume` | gemdroid.src/base/cp_annotate.cc:1024-1046 | the dequeue loop leaves the specified records; its inconsistency check never fails |
| `CpAnnotate.Trim` | gemdroid.src/base/cp_annotate.cc:634-656 | the trimming loop leaves the specified records; its inconsistency check never fails |
| `CpAnnotate.CPA.constructor` | gemdroid.src/base/cp_annotate.cc:102-131 | a new annotator is the model's first state |
| `CpAnnotate.CPA.GetSys` | gemdroid.src/base/cp_annotate.hh:323-341 | takes the model's step, in place |
| `CpAnnotate.CPA.GetSm` | gemdroid.src/base/cp_annotate.hh:283-295 | takes the model's step, in place, failing exactly when it does |
| `CpAnnotate.CPA.GetQ` | gemdroid.src/base/cp_annotate.hh:345-360 | takes the model's step, in place, failing exactly when it does |
| `CpAnnotate.CPA.GetSt` | gemdroid.src/base/cp_annotate.hh:299-320 | takes the model's step, in place, with its counters |
| `CpAnnotate.CPA.Dump` | gemdroid.src/base/cp_annotate.cc:924-966 | moves exactly the writable records from pending to written |
| `CpAnnotate.CPA.Add` | gemdroid.src/base/cp_annotate.cc:812-836 | appends one record; a link never sets off a write-out |
| `CpAnnotate.CPA.DoQ` | gemdroid.src/base/cp_annotate.cc:968-986 | takes the model's step, in place |
| `CpAnnotate.CPA.DoDq` | gemdroid.src/base/cp_annotate.cc:989-1051 | takes the model's step, in place, failing exactly when the bytes are not there |
| `CpAnnotate.CPA.Resize` | gemdroid.src/base/cp_annotate.cc:617-658 | takes the model's step, in place |
| `CpAnnotate.CPA.ResolveLink` | gemdroid.src/base/cp_annotate.cc:211-225 | takes the model's step, in place, failing exactly when it does |
| `CpAnnotate.CPA.StartMachine` | gemdroid.src/base/cp_annotate.cc:178-225 | takes the model's step, in place, failing exactly when it does |
| `CpAnnotate.CPA.SwSmBegin` | gemdroid.src/base/cp_annotate.cc:145-235 | the whole new state is that of the model's step: stack, links, queues, trace and tables |
| `CpAnnotate.CPA.EndMachine` | gemdroid.src/base/cp_annotate.cc:262-302 | the whole new state is that of the model's step |
| `CpAnnotate.CPA.DoSwSmEnd` | gemdroid.src/base/cp_annotate.cc:250-303 | the whole new state is that of the model's step |
| `CpAnnotate.CPA.HoldLink` | gemdroid.src/base/cp_annotate.cc:802-803 | the whole new state is that of the model's step |
| `CpAnnotate.CPA.SwSyscallLink` | gemdroid.src/base/cp_annotate.cc:773-810 | the whole new state is that of the model's step, failing exactly when it does |
| `CpAnnotate.CPA.SwQ` | gemdroid.src/base/cp_annotate.cc:411-440 | the whole new state is that of the model's step, failing exactly when it does |
| `CpAnnotate.CPA.SwDq` | gemdroid.src/base/cp_annotate.cc:442-469 | the whole new state is that of the model's step, failing exactly when it does |
| `CpAnnotate.CPA.SwSq` | gemdroid.src/base/cp_annotate.cc:593-659 | the whole new state is that of the model's step, failing exactly when it does |
| `AnnotateReplay.Execute` | gemdroid.src/base/cp_annotate.cc:145-836 | any call on the object fails exactly when the model's does and gives its state |
| `AnnotateReplay.Replay` | gemdroid.src/base/cp_annotate.cc:102-1051 | every list of calls on a new annotator, up to the first that fails, gives the state of the model's run, and the pending list holds exactly the records not yet written |
| `BlockRecurrence.OneWordFurther` | gemdroid.src/base/random_mt.cc:122-137 | overwriting word k from words k + M, k and k + 1 of the half-regenerated block gives the next word of the infinite sequence |
| `BlockRecurrence.Random.Init` | gemdroid.src/base/random_mt.cc:49-64 | fills the array with the first words of the sequence of the seed |
| `BlockRecurrence.Random.Regenerate` | gemdroid.src/base/random_mt.cc:120-139 | the three loops replace the block by the next block of the sequence, in place |
| `BlockRecurrence.Random.GenRand` | gemdroid.src/base/random_mt.cc:116-149 | gives the tempered next word of the sequence |
| `BlockRecurrence.Outputs` | gemdroid.src/base/random_mt.cc:116-149 | for every seed and every i the i-th number is the tempered x_{N+i} |
| `XorShifts.LeftIsBijection` | gemdroid.src/base/random_mt.cc:143-146 | x ^ ((x << k) & m) has an inverse, for every mask |
| `XorShifts.RightIsBijection` | gemdroid.src/base/random_mt.cc:143-146 | x ^ (x >> k) has an inverse |
| `MersenneTwister.CombineBits` | gemdroid.src/base/random_mt.cc:122-137 | the combination written with masks and shifts is bit for bit the recurrence's |
| `MersenneTwister.TemperIsBijection` | gemdroid.src/base/random_mt.cc:143-146 | the tempering is a bijection on 32-bit words |
| `MersenneTwister.Numbers` | gemdroid.src/base/random_mt.cc:116-149 | with the MT19937 constants every output is the tempered word of the recurrence |
| `MersenneReference.SeedStepValue` | gemdroid.src/base/random_mt.cc:55-62 | the seeding step is (1812433253 * (v xor v / 2^30) + i) mod 2^32 on numbers |
| `MersenneReference.CombineValue` | gemdroid.src/base/random_mt.cc:122-137 | the twist on numbers |
| `MersenneReference.TemperValue` | gemdroid.src/base/random_mt.cc:143-146 | the tempering on numbers, with shifts 11, 7, 15 and 18 and its masks |
| `BitNumbers.XorBits` | gemdroid.src/base/random_mt.cc:143-146 | exclusive or on numbers is bit by bit |
| `BitNumbers.AndBits` | gemdroid.src/base/random_mt.cc:143-146 | and on numbers is bit by bit |
| `MersenneReference.ReferenceNumbers` | gemdroid.src/base/random_mt.cc:49-149 | for every seed, number i is the tempered x_{624+i} of the standard's engine, all in plain numbers |
| `MersenneReference.WordsOfZero` | gemdroid.src/base/random_mt.cc:55-62 | words 1 and 2 for seed 0 are 1 and 1812433255 |
| `MersenneReference.WordsOfDefault` | gemdroid.src/base/random_mt.cc:55-62 | words 1 and 2 for seed 5489 are 1301868182 and 2938499221 |
| `AddrRanges.SingleIntersects` | gemdroid.src/base/addr_range.hh:214-242 | intersecting a single address is containing it |
| `AddrRanges.StripeBits` | gemdroid.src/base/addr_range.hh:259-266 | bit k of an address's stripe is bit intlvHighBit + 1 - intlvBits + k of the address |
| `AddrRanges.GranulesGoRound` | gemdroid.src/base/addr_range.hh:259-266 | one granule lies in one stripe, and the next granule in the next stripe, going round |
| `AddrRanges.SecondOfFour` | gemdroid.src/base/addr_range.hh:259-266 | of four stripes on bits 7 and 6, just stripe 1 contains address 64 |
| `AddrRanges.SizeOneIff` | gemdroid.src/base/addr_range.hh:221-225 | the size test holds for one-address ranges, and for interleaved ranges with one address a stripe |
| `AddrRanges.Merge` | gemdroid.src/base/addr_range.hh:97-129 | fails exactly when the stripes do not fit together in order; otherwise gives their common bounds without interleaving |
| `AddrRanges.MergedCovers` | gemdroid.src/base/addr_range.hh:97-129 | every address of a stripe is in the merged range |
| `AddrRanges.MergedIsUnion` | gemdroid.src/base/addr_range.hh:97-129 | an address of the merged range is in a stripe exactly when its stripe number fits the match field |
| `AddrRanges.StripeLost` | gemdroid.src/base/addr_range.hh:97-129 | 512 stripes are accepted although no stripe holds address 256 |
| `AddrRangeMaps.HolderIsUnique` | gemdroid.src/base/addr_range_map.hh:68-109 | in a disjoint map at most one entry contains an address |
| `AddrRangeMaps.LookupExact` | gemdroid.src/base/addr_range_map.hh:68-109 | the search finds the entry that contains the address, unless that entry is not the first, starts at the address and has a non-zero match |
| `AddrRangeMaps.LookupRightIff` | gemdroid.src/base/addr_range_map.hh:68-109 | the search agrees with a full scan for every address exactly when no entry but the first contains its own start under a non-zero match |
| `AddrRangeMaps.AlignedStartsReachable` | gemdroid.src/base/addr_range_map.hh:68-109 | maps whose chunks start with zero interleave bits meet that condition |
| `AddrRangeMaps.StartMissed` | gemdroid.src/base/addr_range_map.hh:68-109 | a disjoint map where the search misses an address |
| `AddrRangeMaps.InsertKeepsDisjointIff` | gemdroid.src/base/addr_range_map.hh:123-130 | an insert keeps the map disjoint exactly when the new range is clear of its predecessor and its successor; for all but one-address ranges the check before it covers the predecessor |
| `AddrRangeMaps.OneAddressAccepted` | gemdroid.src/base/addr_range_map.hh:123-130 | a one-address range inside its predecessor's bounds is accepted, and then the search misses an address that the map holds |
| `AddrRangeMaps.InsertKeepsRightIff` | gemdroid.src/base/addr_range_map.hh:68-130 | after a clear insertion the search is right for every address exactly when the new range is reachable or first, the old first entry is reachable or still first, and the others are reachable |
| `AddrRangeMaps.FirstMissedLater` | gemdroid.src/base/addr_range_map.hh:68-130 | a map where the search is right and a clear accepted insertion after which it is not |
| `AddrRangeMaps.OverlapAccepted` | gemdroid.src/base/addr_range_map.hh:123-130 | a range that overlaps its successor is accepted |
| `AddrRangeMaps.AddrRangeMap.Find` | gemdroid.src/base/addr_range_map.hh:68-109 | the iterator loop computes the specified search |
| `AddrRangeMaps.AddrRangeMap.FindAddress` | gemdroid.src/base/addr_range_map.hh:111-115 | for one address, right whenever the map is disjoint and meets that condition |
| `AddrRangeMaps.AddrRangeMap.Insert` | gemdroid.src/base/addr_range_map.hh:123-130 | adds the entry in order exactly when the search finds nothing and the key is new |
| `AddrMapRuns.BuiltHas` | gemdroid.src/base/addr_range_map.hh:123-130 | after any list of insertions the entries are exactly the items accepted |
| `AddrMapRuns.BuiltDisjoint` | gemdroid.src/base/addr_range_map.hh:123-130 | ranges that lie apart give a disjoint map, in whatever order they come |
| `AddrMapRuns.SearchIsScan` | gemdroid.src/base/addr_range_map.hh:68-130 | after any list of insertions of aligned ranges that lie apart, the search finds for every address the accepted item that contains it, and nothing exactly when there is none |
| `AddrMapRuns.ApartAcceptedIff` | gemdroid.src/base/addr_range_map.hh:68-130 | a range apart from all entries is accepted exactly when the intersection test gives the right answer at every entry the search comes past |
| `AddrMapRuns.AllTaken` | gemdroid.src/base/addr_range_map.hh:68-130 | of such ranges every one is accepted if they hold at most one chunk and no stripe of one address |
| `AddrMapRuns.WholeListSearched` | gemdroid.src/base/addr_range_map.hh:68-130 | for such lists no insertion panics and the search is a scan of the whole list |
| `AddrMapRuns.TwoChunksPanic` | gemdroid.src/base/addr_range.hh:214-242 | inserting a second chunk that lies apart from the first panics |
| `AddrMapRuns.OneAddressStripeRefused` | gemdroid.src/base/addr_range.hh:214-242 | the second stripe of one address is refused |
| `AddrMapRuns.Replay` | gemdroid.src/base/addr_range_map.hh:68-130 | the class, fed any list of items and asked for an address, answers with the value of the accepted item that contains it, if the items are aligned and lie apart; stops exactly when an insertion panics |
| `IsaOperands.OperandList.Enumerate` | gemdroid.src/arch/isa_parser.py:893-929 | numbers source and destination registers by their place, counts destinations by bank and spots predication; fails exactly on a second memory operand |
| `IsaOperands.OperandList.Finalize` | gemdroid.src/arch/isa_parser.py:938-942 | every descriptor ends with the code of its operand at its place in the list |
| `IsaOperands.ComposeWriteBack` | gemdroid.src/arch/isa_parser.py:208-222 | the backward loop over the finalized descriptors composes the write-back code in operand order, the program counter put back after its last part |
| `IsaOperands.Generate` | gemdroid.src/arch/isa_parser.py:893-942 | enumerating, finalizing and concatenating gives the three pieces of code for every operand list; fails exactly on a second memory operand or a register that cannot hold its type |
| `IsaOperands.GeneratedCodeIff` | gemdroid.src/arch/isa_parser.py:203-222 | the code so concatenated reads and writes the operands' own registers if and only if at most 128 of a kind are stored |
| `IsaOperands.ConstructorStep` | gemdroid.src/arch/isa_parser.py:543-563 | one operand's constructor code stores its register exactly when its predicate holds or is not used, and counts it by bank |
| `IsaOperands.ConstructorsStore` | gemdroid.src/arch/isa_parser.py:1117-1118 | the constructor stores, in order, the registers of the operands whose predicates hold, and works exactly as long as no more than 128 of a kind are stored |
| `IsaOperands.StoredNumbersTellApart` | gemdroid.src/arch/isa_parser.py:543-563 | with register banks that do not overlap, the stored numbers tell registers of different banks apart |
| `IsaOperands.StaticNumbersAreSlots` | gemdroid.src/arch/isa_parser.py:906-913 | without predicates an operand's number is the slot it is stored in |
| `IsaOperands.SlotsAreOwn` | gemdroid.src/arch/isa_parser.py:174-177 | up to that bound the 8-bit run-time counters give the same slots as fixed numbers |
| `IsaOperands.ReadTaken` | gemdroid.src/arch/isa_parser.py:565-582 | a read whose predicate holds uses the next slot and delivers the operand's register |
| `IsaOperands.ReadSkipped` | gemdroid.src/arch/isa_parser.py:572-579 | a read whose predicate is false gives 0 and uses no slot; other operands use none |
| `IsaOperands.ReadsAgreeIff` | gemdroid.src/arch/isa_parser.py:614-747 | for every operand list and truth assignment: constructor and reads use exactly the slots of their operands and load their registers' values, if and only if at most 128 registers of a kind are stored |
| `IsaOperands.WriteTaken` | gemdroid.src/arch/isa_parser.py:584-605 | a write whose predicate holds uses the next slot and sets the operand's register |
| `IsaOperands.WritesAgreeIff` | gemdroid.src/arch/isa_parser.py:584-767 | for every operand list and truth assignment: constructor and writes use exactly the slots of their operands and set their registers, under the same bound and only then |
| `IsaOperands.TooManySources` | gemdroid.src/cpu/static_inst.hh:98-101 | 129 source registers, numbered statically, break the code |
| `IsaOperands.EveryPartIsPutBack` | gemdroid.src/arch/isa_parser.py:212-222 | where parts of the program counter are written, the counter put back has all of them |
| `RemoteGdb.Mem2hex` | gemdroid.src/base/remote_gdb.cc:968-979 | writes two digits a byte |
| `RemoteGdb.Hex2mem` | gemdroid.src/base/remote_gdb.cc:985-1000 | reads the leading pairs of digits, at most maxlen, and says where it stopped or that a byte was cut |
| `RemoteGdb.HexRoundTrip` | gemdroid.src/base/remote_gdb.cc:968-1000 | hex2mem undoes mem2hex |
| `RemoteGdb.UnhexRoundTrip` | gemdroid.src/base/remote_gdb.cc:968-1000 | mem2hex undoes hex2mem on whole bytes, up to upper case |
| `RemoteGdb.DigitTable` | gemdroid.src/base/remote_gdb.cc:945-964 | the sixteen digits, as written and as read in either case |
| `RemoteGdb.SendOnce` | gemdroid.src/base/remote_gdb.cc:372-384 | puts out the frame with its checksum |
| `RemoteGdb.Send` | gemdroid.src/base/remote_gdb.cc:364-388 | repeats the frame once for each leading - among the replies |
| `RemoteGdb.RecvOnce` | gemdroid.src/base/remote_gdb.cc:397-429 | one attempt reads noise, body and checksum into the buffer as specified |
| `RemoteGdb.Recv` | gemdroid.src/base/remote_gdb.cc:390-448 | the retry loop, with sequence prefixes, in place, is the specified receive |
| `RemoteGdb.ChecksExactly` | gemdroid.src/base/remote_gdb.cc:424-429 | which checksum characters pass |
| `RemoteGdb.SentIsReceived` | gemdroid.src/base/remote_gdb.cc:364-448 | a sent frame is accepted exactly when an even number of bytes have bit 7 set, and then loses those bits |
| `RemoteGdb.HighByteRefused` | gemdroid.src/base/remote_gdb.cc:364-448 | the packet of the one byte 0x80 is taken for a bad one |
| `RemoteGdb.GoodAfterBad` | gemdroid.src/base/remote_gdb.cc:396-443 | after any number of bad attempts, each answered with -, a good packet is delivered and answered with + |
| `RemoteGdb.PacketGetsThrough` | gemdroid.src/base/remote_gdb.cc:364-448 | fed the text of any broken frames and then exactly what send puts out, with noise in between, recv gives exactly the payload, answers - per broken frame and then +, and takes nothing further |
| `RemoteGdb.SequencedGetsThrough` | gemdroid.src/base/remote_gdb.cc:364-448 | the same with a sequence mark: it is sent back after the + and taken off the payload |
| `RemoteGdb.RestTerminatedIff` | gemdroid.src/base/remote_gdb.cc:432-438 | such a payload is terminated exactly when the third byte from its end was 0 |
| `RemoteGdb.ShortPacketIff` | gemdroid.src/base/remote_gdb.cc:432-438 | a payload of less than two bytes gets through exactly when the third place of the buffer holds no colon |
| `RemoteGdb.LongBodyIsBad` | gemdroid.src/base/remote_gdb.cc:403-419 | a body that reaches the limit makes a bad attempt, which ends one byte further on |
| `CircleBufs.CircleBuf.Write` | gemdroid.src/base/circlebuf.cc:179-214 | the array shows the end of the longer history, for writes of every length and from every position |
| `CircleBufs.CircleBuf.ReadAll` | gemdroid.src/base/circlebuf.cc:157-165 | shows the last min(total, buflen) bytes of the history, in order |
| `CircleBufs.CircleBuf.Flush` | gemdroid.src/base/circlebuf.cc:65-71 | forgets the history |
| `CircleBufs.Replay` | gemdroid.src/base/circlebuf.cc:157-214 | in every run of writes, reads and flushes each read shows exactly the last bytes written since the last flush |
| `Strings.Tokenize` | gemdroid.src/base/str.cc:73-108 | gives all pieces between separators, or the non-empty ones |
| `Strings.SplitJoin` | gemdroid.src/base/str.cc:73-108 | joining the pieces restores the string, and no piece holds a separator |
| `Strings.TokensRestore` | gemdroid.src/base/str.cc:73-108 | joining what tokenize gives restores the string; ignoring drops just the empty pieces |
| `Strings.DecStepExact` | gemdroid.src/base/str.cc:220-224 | the decmax and atmax tests reject a digit exactly when the number would not fit |
| `Strings.ScanDecimal` | gemdroid.src/base/str.cc:174-236 | reads the leading decimal digits, rejecting exactly the numbers that do not fit |
| `Strings.ScanDigits` | gemdroid.src/base/str.cc:188-213 | the hexadecimal and octal loops reject exactly non-digits and numbers that do not fit |
| `Strings.Multiply` | gemdroid.src/base/str.cc:249-320 | multipliers and exponents give exactly the products that fit |
| `Strings.Suffixes` | gemdroid.src/base/str.cc:249-290 | the multipliers are powers of 1024 in either case and stand alone, an exponent is a power of ten |
| `Strings.Bases` | gemdroid.src/base/str.cc:139-213 | a leading 0 means octal and 0x hexadecimal |
| `Strings.DigitTable` | gemdroid.src/base/str.cc:188-200 | the value of each digit, in either case |
| `Strings.ToNumber` | gemdroid.src/base/str.cc:115-320 | for every unsigned width of at least 8 bits and every string, succeeds exactly when the string denotes a number that fits, and gives it |

## Left out

- Trie: `clear`, `dump` and the NULL value; `width` 0 and inserting a prefix twice are excluded, as the assertion in `insert` does.
- Barrier: a thread count other than `numWaiting`; the mutex and condition variable themselves, whose critical sections are the atomic steps.
- Histogram: `logs`, variance output, and rounding; bucket counts and sample numbers are integers, and real sample values are related to integer ones by one lemma.
- MT19937: seeding from an array, and conversion of words to reals and ranges.
- Address ranges: printing, `isSubset`, erasing from the map, and iterators other than positions.
- Annotator: explicit-state flags, checkpoints, the text of the key, the index kept every 100000 records, guest-memory strings and symbol lookup (the state name is a parameter), and warnings. Runs are of `swSmBegin`, `swSmEnd`, `swSyscallLink`, `swQ`, `swDq`, `swSq` and a forced write-out; not part of them are `swLink`, which also adds links between machines, `hwQ` and `hwDq`, the callers that can queue at the front, and `swBegin`, `swEnd`, `swPq`, `swRq`, `swWf`, `swWe`, `swAq`, `swIdentify` and `swGetId`.
- Annotator: queue counts are non-negative and never overflow 32 bits. Records are positions in a table, the bytes left in each being a column of its own, where the source has pointers to records. Ending a machine on an empty stack, which reads the back of an empty vector, stops the run; so do the assertions on numbers below 65535.
- Operand code: scanning of code for operands, the sort, custom read and write code, sub-lists that differ from the master list, memory access code and trace data. Storing a register beyond the 128th, which writes before the array, is a failure.
- GDB: sockets, registers, breakpoints and command dispatch; a receive that runs out of input is reported instead of waiting.
- Ring buffer: partial reads and the fields `_start` and `_size`, which are updated as the source does but about which nothing is stated.
- Numbers: signed types, trimming of white space, and exponents so long that their own digits overflow 64 bits.
