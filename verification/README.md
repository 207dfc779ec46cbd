# FloWatcher-DPDK: the algorithmic core, modelled and proved

FloWatcher-DPDK is a traffic monitor: packets are received in bursts, hashed, handed
over rings to monitor threads, and counted per flow, with optional statistics on the gaps
between the packets of a flow. This project models the code that does the computing and
proves what it is for.

- **SpookyHash V2** (`SpookyMixing`, `Spooky`, `SpookyStream`, `SpookyProgram`, `SpookyDistinct`,
  `SpookyMessages`, `SpookyVector`).
  The mixing routines are written, statement for statement, as programs of register
  updates (`Mixer`), for which running backwards is proved once and for all. On top of
  them: the one-shot hash and the streaming hash as imperative code over arrays. Feeding
  a message in pieces, with reports in between, always gives the one-shot hash of what was
  fed so far; and the whole hash of a message is one straight-line program over its words.
- **MurmurHash3**, all three variants (`Murmur64`, `MurmurX86`, `MurmurKeys`, `MurmurVectors`, over
  the generic block loop of `Blocks`). Every stage is inverted; two keys of one length that differ
  in one block or in the tail never collide; published test vectors are met.
- **The P-square quantile estimator** (`P2`, `P2Positions`, `P2Behind`): the in-place sort, the
  marker updates, and over whole streams the heights and how close the markers stay to their
  desired positions.
- **The flow tables** (`FlowCells`, `FlowTables`, `FlowCode`, `FlowGaps`): linked list, two slots with a
  chain (hash list), two slots with an overflow counter (double hash), as heap structures, against
  a plain map from hash to count; and the mean inter-packet gap kept in the slots.
- **The rx, ring and monitor pipeline** (`Pipeline`, `PipelineRings`) as a state machine whose runs are all
  interleavings of the threads' steps.

`Words` and `RawWords` hold machine words, their bytes and the numbers they stand for.

The imperative source is modelled by imperative code: each method is proved against a function
of its inputs or its old state, and the theorems are about that function and about whole runs.
The pipeline's threads are endless loops that share memory, so they are steps of a state
machine instead.

Eight properties one might expect of the code are false as they stand; each has its exact
condition here, and an input on which it fails.

- Per-flow counts are exact if and only if, in each bucket, no flow appears for the first time
  after a packet whose upper hash half is 0 (`FlowTables.TableRefinesLua`). After the upper
  halves 0 and 7 in one bucket, flow 7 is counted twice and has come once (`FlowTables.CountsWrong`).
- The reported number of flows is exact if and only if, in each bucket, no flow appears for the
  first time after the bucket's last packet with upper half 0; it is short by one for every
  bucket in which one does (`FlowTables.EarlyStopCountsFlows`, `FlowTables.ForgottenFlow`).
- The mean gaps kept in a bucket are right if and only if no packet with upper half 0 precedes
  the first packet of one of the bucket's first two other flows (`FlowGaps.MeansExact`,
  `FlowGaps.MeanWrong`).
- The estimator's last height is the longest gap if and only if no gap after the fifth is
  negative: a gap of -1, between two packets of one burst, is read as 2^64 - 1
  (`P2.HeightsExact`, `P2.FalseMaximum`, `FlowGaps.MisreadBurst`).
- Its first height is the shortest gap if and only if, of the first five gaps, those that come
  after a longer one are below 2^31, and no negative gap after the fifth is shorter than all of
  the first five (`P2.HeightsExact`, `P2.FalseMinimum`, `P2.FalseMaximum`). The heights
  ascend without condition.
- After its turn no marker is a whole position or more below its desired one with the next position
  free, whatever the samples, if and only if the quantile P, between 0 and 1, is below 4/7 or in
  [3/5, 5/8) (`P2Behind.PaceExact`). With the 0.99 of the source it fails on the
  gaps 10, 20, 30, 40, 50, 60, 45 (`P2Behind.SeventhGap`). One update leaves a marker behind exactly
  if, with the sample counted, it is two positions behind two free ones (`P2Positions.StillLags`).
  The other half, that a marker above its desired position falls back, holds on all streams
  (`P2Positions.AfterClose`).
- The reported number of miscounted packets falls short of the packets of all but the first two
  flows of each bucket by exactly `FlowCode.Shortfalls`: in each bucket where upper half 0 is
  one of the first two and two other flows come, by the packets of the second of these less the
  packets with upper half 0 after its first (`FlowCells.OverflowShortfall`,
  `FlowCode.OverflowIsMiscounted`, `FlowCells.OverflowWrong`).
- A waiting monitor's ring holds no more than the packets not yet signalled if and only if no
  signal came, with packets in the ring, between its finding the ring empty and its waiting
  (`Pipeline.BacklogBound`, `Pipeline.LostWakeup`).

## Assumptions

- `double` and `float` are real numbers; a conversion from `double` to `int` truncates, and
  gives the smallest `int` when out of range, as on x86-64.
- Counters and packet totals do not wrap. A streamed message is shorter than 2^64 bytes,
  a MurmurHash3 key shorter than 2^31 bytes (its length is an `int`).
- The host is little-endian and allows unaligned reads (toeplitz/spooky.c:31).
- Allocation succeeds.
- A signal on a condition nobody waits for has no effect, and one thread's updates of the shared
  counters and of the table are not torn by another's. Each step of `Pipeline` is atomic.
- A monitor's `re` counter is the one of the rx thread that feeds it (lthread/main.c:904
  and 1171). A ring of 65536 * 4 slots (lthread/main.c:918) holds one packet less.

## Model

| member | source | states |
|---|---|---|
| Words.RotationIsShiftOr64 | toeplitz/murmur3.c:26-29 | the shift-and-or rotation of the source is the bit rotation used in the model, for every count the hashes use |
| Words.RotationIsShiftOr32 | toeplitz/murmur3.c:21-24 | the same for 32-bit words |
| Words.XoredTailIsWord64 | toeplitz/murmur3.c:274-293 | the bytes of a tail, each shifted left by eight times its index and xored from the last one down, make the zero-padded little-endian word |
| Words.XoredTailIsWord32 | toeplitz/murmur3.c:184-208 | the same for the 32-bit tails |
| Mixer.RunUnrun | toeplitz/spooky.c:104-243 | any straight line of additions, xors and rotations on registers is undone by running its inverses backwards |
| Mixer.RunInjective | toeplitz/spooky.c:104-243 | so with fixed data it never maps two states to one |
| Mixer.Exec | toeplitz/spooky.c:104-130 | executing a mixing routine in place on the register array leaves exactly the state the program denotes |
| SpookyMixing.MixRowsTurn | toeplitz/spooky.c:106-129 | the 24 lines of spooky_mix are one pattern, moved by one register each, with the twelve rotation counts |
| SpookyMixing.EndPartialRowsTurn | toeplitz/spooky.c:151-162 | the same for spooky_end_partial |
| SpookyMixing.ShortMixRowsTurn | toeplitz/spooky.c:203-214 | the same for spooky_short_mix |
| SpookyMixing.ShortEndRowsTurn | toeplitz/spooky.c:232-242 | the same for spooky_short_end |
| SpookyMixing.MixInjective | toeplitz/spooky.c:104-130 | with a fixed block spooky_mix never maps two 12-word states to one |
| SpookyMixing.EndInjective | toeplitz/spooky.c:149-183 | nor does spooky_end with a fixed last block |
| SpookyMixing.ShortMixInjective | toeplitz/spooky.c:201-215 | nor does spooky_short_mix map two 4-word states to one |
| SpookyMixing.ShortEndInjective | toeplitz/spooky.c:230-243 | nor does spooky_short_end |
| SpookyDistinct.RoutinesPermute | toeplitz/spooky.c:104-243 | spooky_mix, spooky_end and each of its rounds, spooky_short_mix and spooky_short_end are permutations of their word states, each with an explicit two-sided inverse |
| Spooky.MixBlocksConcat | toeplitz/spooky.c:381-387 | mixing whole blocks can be stopped and resumed at any block boundary |
| SpookyProgram.HashIsProgram | toeplitz/spooky.c:249-406 | the hash of every message is the first two words that one straight-line program over the message's words ends with, started from the seeds and the constant: four registers below 192 bytes, twelve from there on |
| SpookyProgram.ShortIsProgram | toeplitz/spooky.c:249-337 | the short state is the run of: every even 16-byte half into h[2] and h[3] and mixed, every odd one into h[0] and h[1], then length, tail words and short end |
| SpookyProgram.LongIsProgram | toeplitz/spooky.c:374-403 | the long state is the run of spooky_mix on every block, the addition of the completed last block, and three partial ends |
| SpookyProgram.CompletedBytes | toeplitz/spooky.c:396-400 | the last block is completed with zeros and the number of its message bytes |
| SpookyMessages.PlacedSumIsWord | toeplitz/spooky.c:296-329 | the fall-through additions read up to seven bytes as a zero-padded little-endian word |
| SpookyVector.KnownAnswer | toeplitz/spooky.c:249-337 | the hash of "hello world" with seeds 1 and 2 is the given pair of words |
| Spooky.SpookyShort | toeplitz/spooky.c:249-337 | the in-place routine leaves the state of ShortIsProgram for every length: 32-byte groups, the 16-byte rest, the fall-through tail with its length byte, the empty tail |
| Spooky.MixWholeBlocks | toeplitz/spooky.c:379-387 | the pointer loop consumes exactly the whole 96-byte blocks and leaves less than one |
| Spooky.Finish | toeplitz/spooky.c:396-405 | final mixing of the padded last block in place |
| Spooky.SpookyHash128 | toeplitz/spooky.c:356-406 | the one-shot routine computes Hash, short and long messages alike |
| SpookyStream.MemCpy | toeplitz/spooky.c:434 | the bytes are copied to their place and nothing else in the array changes |
| SpookyStream.PadBlock | toeplitz/spooky.c:517-519 | padding overwrites the array only from the end of the stashed bytes on |
| SpookyStream.SpookyState.Init | toeplitz/spooky.c:409-416 | init forgets everything fed before and sets both seeds |
| SpookyStream.SpookyState.Update | toeplitz/spooky.c:419-488 | update appends the fragment to the message fed so far and keeps the stash invariant: what is mixed is a whole number of blocks, less than 192 bytes are stashed, nothing is mixed exactly while fewer than 192 bytes were fed |
| SpookyStream.SpookyState.Overflow | toeplitz/spooky.c:440-487 | the branch that mixes, in all three regimes |
| SpookyStream.SpookyState.LoadVars | toeplitz/spooky.c:440-448 | the working registers are the seeds while nothing is mixed and the stored registers afterwards: in both cases the registers after all mixed blocks |
| SpookyStream.SpookyState.MixStash | toeplitz/spooky.c:451-459 | completing the stash to 192 bytes and mixing both its blocks |
| SpookyStream.SpookyState.MixFragment | toeplitz/spooky.c:440-480 | after it the registers are those after every whole block of the message so far, and the rest of the fragment is less than a block |
| SpookyStream.SpookyState.Stash | toeplitz/spooky.c:482-487 | the rest of the fragment and the registers are stored, and nothing else of the state changes |
| SpookyStream.SpookyState.Final | toeplitz/spooky.c:491-526 | final returns the one-shot hash of everything fed, and although it pads the live stash the state still stands for the same message |
| SpookyStream.SpookyState.FinishStash | toeplitz/spooky.c:503-522 | a stash of 96 to 191 bytes is split again before padding |
| SpookyStream.Session | toeplitz/spooky.c:408-526 | in every interleaving of updates and finals each final reports the one-shot hash of the bytes fed before it |
| SpookyStream.HashFragments | toeplitz/spooky.c:408-526 | init, update on each fragment and final equal spooky_hash128 on the concatenation, so any two ways of cutting a message agree |
| SpookyDistinct.LongSeedsDistinct | toeplitz/spooky.c:374-403 | for a fixed message of 192 or more bytes distinct seed pairs end in distinct 12-word states |
| SpookyDistinct.ShortSeedsDistinct | toeplitz/spooky.c:249-337 | for a fixed shorter message distinct seed pairs end in distinct 4-word states |
| SpookyMessages.ShortHalvesDistinct | toeplitz/spooky.c:272-292 | short messages of one length that differ only inside 16 bytes at a multiple of 16, in either half of a 32-byte group or in the remaining half, end in distinct states |
| SpookyMessages.ShortTailsDistinct | toeplitz/spooky.c:294-333 | short messages that share their whole 16-byte part but not what follows, in length or in content, end in distinct states |
| SpookyMessages.LongWordsDistinct | toeplitz/spooky.c:379-387 | long messages of one length that differ only inside one word of a whole 96-byte block end in distinct states |
| SpookyDistinct.LongTailsDistinct | toeplitz/spooky.c:396-403 | long messages that share their whole blocks but not what follows, in length or in content, end in distinct states |
| Blocks.FoldConcat | toeplitz/murmur3.c:252-264 | a block loop can be stopped and resumed at a block boundary |
| Blocks.FoldInjective | toeplitz/murmur3.c:252-264 | a block loop with a step injective in the state is injective in the state |
| Blocks.OneBlockApart | toeplitz/murmur3.c:252-264 | and two inputs that differ only inside one block leave it in different states |
| Murmur64.FmixUnfmix | toeplitz/murmur3.c:58-67 | fmix64 and its explicit inverse undo each other in both orders |
| Murmur64.StepUnstepState | toeplitz/murmur3.c:254-263 | for a fixed block the block step is undone on the state |
| Murmur64.StepUnstepBlock | toeplitz/murmur3.c:254-263 | for a fixed state the block is recovered from the new state |
| Murmur64.StepOfUnstepBlock | toeplitz/murmur3.c:254-263 | and for a fixed state every new state is reached by some block |
| Murmur64.FinishUnfinish | toeplitz/murmur3.c:299-308 | the finalisation is undone in both orders, for every length |
| Murmur64.XorBytes | toeplitz/murmur3.c:274-293 | the fall-through xors compute the zero-padded little-endian word |
| Murmur64.MixBlock | toeplitz/murmur3.c:254-263 | the in-place block statements compute BlockStep |
| Murmur64.MixTail | toeplitz/murmur3.c:266-294 | the switch with its fall-throughs, for every tail length |
| Murmur64.MurmurHash3_x64_128 | toeplitz/murmur3.c:234-312 | the whole routine computes Hash for every key and seed; what Hash is, the rows below and KnownAnswer pin down |
| Murmur64Keys.EmptyKey | toeplitz/murmur3.c:234-312 | the empty key with seed s gives a + b and b + (a + b) for a = fmix64(2 s) and b = fmix64(3 s), for every seed |
| Murmur64Keys.TailIsPadded | toeplitz/murmur3.c:266-294 | a tail counts as the sixteen bytes it is padded to with zeros |
| Murmur64Keys.ZerosNeverCollide | toeplitz/murmur3.c:266-302 | a key and the same key followed by zeros inside the same partial block never share a hash |
| Murmur64Vector.KnownAnswer | toeplitz/murmur3.c:234-312 | "The quick brown fox jumps over the lazy dog" with seed 0 gives the published 128 bits: two blocks, a tail, the length |
| Murmur64.BlocksNeverCollide | toeplitz/murmur3.c:234-312 | keys of one length that differ only inside one 16-byte block have different 128-bit hashes |
| Murmur64.TailsNeverCollide | toeplitz/murmur3.c:234-312 | keys of one length that differ only in the tail have different 128-bit hashes |
| Murmur64.SeedsNeverCollide | toeplitz/murmur3.c:234-312 | of one key, no two seeds give the same hash |
| Murmur64.Hash16IsPermutation | toeplitz/murmur3.c:234-312 | on 16-byte keys the hash has an explicit two-sided inverse for every seed |
| Murmur64.FiveTuplesNeverCollide | toeplitz/main.c:60-100 | 5-tuple structs that differ in a field or in the padding bytes have different full hashes |
| MurmurX86Words.MultipliersInvertible | toeplitz/murmur3.c:45-171 | each multiplier of the 32-bit variants has the given inverse |
| MurmurX86Words.FmixUnfmix | toeplitz/murmur3.c:45-54 | fmix32 and its explicit inverse undo each other |
| MurmurX86Words.ScrambleUnscramble | toeplitz/murmur3.c:92-94 | multiply, rotate, multiply is undone |
| MurmurX86Words.StirUnstir | toeplitz/murmur3.c:157-159 | xor, rotate, add, times five plus a constant is undone |
| MurmurX86Words.XorBytes | toeplitz/murmur3.c:108-113 | the fall-through xors compute the zero-padded little-endian word |
| Murmur32.MurmurHash3_x86_32 | toeplitz/murmur3.c:71-124 | the routine, with its loop over negative block indices, computes Hash |
| Murmur32.MixBlock | toeplitz/murmur3.c:90-98 | the in-place block statements compute BlockStep |
| Murmur32.MixBody | toeplitz/murmur3.c:86-99 | the loop from -nblocks to 0 reads each block once and in order |
| Murmur32.BlocksNeverCollide | toeplitz/murmur3.c:71-124 | keys of one length that differ only inside one 4-byte block have different hashes |
| Murmur32.TailsNeverCollide | toeplitz/murmur3.c:71-124 | keys of one length that differ only in the tail have different hashes |
| Murmur32.SeedsNeverCollide | toeplitz/murmur3.c:71-124 | of one key, no two seeds give the same hash |
| Murmur32Keys.EmptyKey | toeplitz/murmur3.c:71-124 | the empty key gives fmix32 of the seed, for every seed |
| Murmur32Keys.ZerosNeverCollide | toeplitz/murmur3.c:101-120 | a key and the same key followed by zeros inside the same partial block never share a hash |
| Murmur32Vector.KnownAnswer | toeplitz/murmur3.c:71-124 | "Hello, world!" with seed 0x9747b28c gives the published 32 bits: three blocks, a tail, the length |
| Murmur32.Hash4IsOnto | toeplitz/murmur3.c:71-124 | every 32-bit value is the hash of a 4-byte key, given explicitly; with BlocksNeverCollide a permutation |
| Murmur128.KUnk | toeplitz/murmur3.c:157-169 | the four scrambles of a block are undone |
| Murmur128.MixBlock | toeplitz/murmur3.c:152-171 | the in-place block statements compute BlockStep |
| Murmur128.MixBody | toeplitz/murmur3.c:148-172 | the loop over negative indices reads each input byte exactly once and in order |
| Murmur128.MixTail | toeplitz/murmur3.c:177-208 | the switch with its fall-throughs, for every tail length |
| Murmur128.FinishUnfinish | toeplitz/murmur3.c:213-224 | the finalisation is undone in both orders |
| Murmur128.MurmurHash3_x86_128 | toeplitz/murmur3.c:128-230 | the routine computes Hash |
| Murmur128Keys.EmptyKey | toeplitz/murmur3.c:128-230 | the empty key with seed s gives t, b + t, b + t, b + t for a = fmix32(4 s), b = fmix32(5 s) and t = a + 3 b, for every seed |
| Murmur128Keys.TailIsPadded | toeplitz/murmur3.c:177-208 | a tail counts as the four words it is padded to with zeros |
| Murmur128Keys.ZerosNeverCollide | toeplitz/murmur3.c:177-213 | a key and the same key followed by zeros inside the same partial block never share a hash |
| Murmur128Vector.KnownAnswer | toeplitz/murmur3.c:128-230 | "The quick brown fox jumps over the lazy dog" with seed 0 gives the published 128 bits |
| Murmur128.BlocksNeverCollide | toeplitz/murmur3.c:128-230 | keys of one length that differ only inside one 16-byte block have different hashes |
| Murmur128.TailsNeverCollide | toeplitz/murmur3.c:128-230 | keys of one length that differ only in the tail have different hashes |
| Murmur128.SeedsNeverCollide | toeplitz/murmur3.c:128-230 | of one key, no two seeds give the same hash |
| P2.InsertSortConverts | run_to_completion/main.c:314-330 | insertSort leaves in order, as a multiset, the values with every one converted to int that has a larger one before it, and the maximum last, whenever those conversions do not go up |
| P2.InsertSortExact | run_to_completion/main.c:314-330 | insertSort keeps the multiset of its values if and only if every value that has a larger one before it fits an int, and then it sorts |
| P2.InsertSortOnGaps | run_to_completion/main.c:740-747 | on whole numbers above the smallest int it always sorts and keeps the maximum; the first value is the minimum if and only if every value that has a larger one before it fits an int |
| P2.FalseMinimum | run_to_completion/main.c:740-749 | a stream of six gaps, the smallest of them 0, after which the first height is -2147483648 |
| P2.LateCoveredByMinusOne | run_to_completion/main.c:740-749 | with gaps of -1 or more the last condition says that one of the first five is -1 if a later one is |
| P2.LateMinusOne | run_to_completion/main.c:247-262 | once a gap after the fifth is -1 the last height is 2^64 - 1 |
| P2.FalseMaximum | run_to_completion/main.c:740-749 | a stream of six gaps from -1 to 5 after which the last height is 2^64 - 1 and the first one 1 |
| P2.SortedIsFixed | run_to_completion/main.c:314-330 | on sorted heights it changes nothing, so the repeated calls do no harm |
| P2.ParabolicIsQuadratic | run_to_completion/main.c:298-300 | the parabolic formula gives the value at n+d of the quadratic through the three neighbouring points |
| P2.QuadraticExists | run_to_completion/main.c:298-300 | through any three such points there is a quadratic |
| P2.ParabolicDirection | run_to_completion/main.c:298-300 | between ascending heights the parabola does not fall when the marker moves up nor rise when it moves down |
| P2.LinearBetween | run_to_completion/main.c:303-304 | the linear formula stays between the marker's height and its neighbour's |
| P2.AdjustFollows | run_to_completion/main.c:292-310 | what a move does to the heights; when a marker moves, AdjustMoves says: adjusting a marker keeps positions strictly ascending and heights ascending; moving up never lowers the height, moving down never raises it, and it stays between its neighbours |
| P2Positions.AdjustMoves | run_to_completion/main.c:292-310 | a marker moves up exactly if it is at least one position below its desired one and the next position is free, down exactly if it is at least one above and the previous position is free, and always by one |
| P2Positions.AdjustHeight | run_to_completion/main.c:298-306 | a marker that moves gets the height at its new position of every quadratic through it and its neighbours, if that is strictly between the neighbours' heights, and otherwise the height of the straight line |
| P2Positions.StillLags | run_to_completion/main.c:292-310 | after its turn a marker is still a whole position behind a free one if and only if, with the sample counted, it was two behind two free ones |
| P2Positions.SampleCounts | run_to_completion/main.c:252-282 | with ascending heights a sample counts for marker 1 if and only if it is below its height, for marker 2 if and only if it is not above, for marker 3 if and only if it is below its height or not above that of marker 2, for the last always and for the first never |
| P2Positions.DesiredMidway | run_to_completion/main.c:284-289 | on all streams the desired positions are 1, the count, 1 + P (count - 1) and the midpoints between these |
| P2Positions.AfterClose | run_to_completion/main.c:277-310 | on all streams, for 0 < P < 1: marker 1 is less than a position above its desired one, marker 3 less than one below, and an inner marker a position or more above its desired one has its predecessor directly below it |
| P2Behind.PaceExact | run_to_completion/main.c:277-310 | for 0 < P < 1: on all streams no marker is after its turn a whole position below its desired one with the next position free, if and only if P is below 4/7 or at least 3/5 and below 5/8 |
| P2Behind.RampLeavesBehind | run_to_completion/main.c:740-749 | for every other P a stream of seven to nine evenly growing gaps, the last one falling back, that leaves marker 2 behind |
| P2Behind.SeventhGap | run_to_completion/main.c:740-749 | with P = 0.99 the gaps 10, 20, 30, 40, 50, 60, 45 do |
| P2.CellHoldsSample | run_to_completion/main.c:252-275 | the cell search widens the extremes exactly to hold the sample and keeps the order |
| P2.GetQtKeepsSchedule | run_to_completion/main.c:247-312 | get_qt keeps the first position 1, the last the number of samples, all strictly ascending, and the desired positions at 1 + (count - 1) dn |
| P2.GetQtKeepsSpan | run_to_completion/main.c:247-312 | get_qt keeps the heights ascending, the first one the least of what it was the least of and the new sample, the last one likewise the greatest |
| P2.AfterOnSchedule | run_to_completion/main.c:740-749 | after any stream of five or more samples positions and desired positions are on schedule |
| P2.AfterSpans | run_to_completion/main.c:740-749 | after any stream of six or more, heights ascend from the least of the samples, displaced early ones converted to int, to the greatest sample |
| P2.HeightsOfSamples | run_to_completion/main.c:740-749 | for all streams of six or more gaps, the first five above -2^31, heights ascend and the last is the largest sample, gaps after the fifth converted to uint64_t; the first is the smallest sample if and only if, of the first five, the gaps that come after a longer one are below 2^31, and -2147483648 otherwise |
| P2.HeightsExact | run_to_completion/main.c:740-749 | for all streams of six or more int64_t gaps above -2^31: heights ascend; the last is the longest gap if and only if no gap after the fifth is negative; the first is the shortest gap if and only if the condition of HeightsOfSamples holds and no negative gap after the fifth is shorter than all of the first five |
| P2.Quantile.constructor | run_to_completion/main.c:332-346 | init meets the schedule of five samples |
| P2.Quantile.InsertSort | run_to_completion/main.c:314-330 | the in-place double loop computes the insertion function on the heights |
| P2.Quantile.Sample | run_to_completion/main.c:252-289 | the part of get_qt before the adjustments in place: heights as CellHoldsSample, positions as SampleCounts, desired positions as DesiredMidway say |
| P2.Quantile.AdjustMarker | run_to_completion/main.c:294-309 | one marker's adjustment in place: moved as AdjustMoves and given the height AdjustHeight says |
| P2.Quantile.GetQt | run_to_completion/main.c:247-312 | the whole update, in place |
| P2.Quantile.Observe | run_to_completion/main.c:740-749 | every gap takes the estimator to the markers of the stream with that gap: the first five are stored, then sort and update |
| P2.Estimate | run_to_completion/main.c:740-749 | the code run on any six or more gaps: 1 = n0 < n1 < n2 < n3 < n4 = number of gaps and desired positions on schedule; heights as HeightsOfSamples and HeightsExact say, of the samples and of the gaps |
| FlowCells.HitKeepsWellFormed | run_to_completion/main.c:557-613 | a packet keeps the bucket free of duplicate keys, with all free cells empty and at its end |
| FlowCells.HitCounts | run_to_completion/main.c:557-613 | it adds one to its own key's count and to no other's, but for the packets counted under key 0, which the next new flow takes over |
| FlowCells.HitTotal | run_to_completion/main.c:557-613 | it adds exactly one to the bucket's total |
| FlowCells.CountedWellFormed | run_to_completion/main.c:461-613 | so after any packet sequence the bucket is well formed |
| FlowCells.NothingLost | run_to_completion/main.c:557-613 | and holds as many packets as it was given |
| FlowCells.ExactOrOvercounted | run_to_completion/main.c:557-613 | after any sequence either every count is exact or some flow is overcounted |
| FlowCells.ExactIffNoLateFlow | run_to_completion/main.c:559-566 | counts are exact if and only if no nonzero flow first appears after a packet with upper half 0 |
| FlowCells.CellsInArrivalOrder | run_to_completion/main.c:557-613 | with nonzero upper halves cell i holds the i-th distinct flow in arrival order and its exact count |
| FlowCells.ActiveAfter | pthread/main.c:1246-1253 | stopping at the first zero counter still counts every nonzero key |
| FlowCells.ActiveCountsFlows | pthread/main.c:1246-1253 | its count is the number of the bucket's flows, less one if a new flow first appeared after the last packet with upper half 0 |
| FlowCells.PureUnlessEarlyZero | run_to_completion/main.c:401-451 | both slots count exactly their flow's packets if and only if no packet with upper half 0 precedes the first packet of one of the first two other flows |
| FlowCells.DoubleHitSummarises | run_to_completion/main.c:401-451 | one double-hash step matches one hash-list step |
| FlowCells.DoubleHashSimulates | run_to_completion/main.c:401-451 | after any sequence, zero upper halves included, the two slots equal the hash list's and the third counter is the sum of its chain |
| FlowCells.DoubleHashCounts | run_to_completion/main.c:401-451 | with nonzero upper halves the slots hold the exact counts of the first two distinct flows, and the third counter the packets of all others |
| FlowCells.OverflowShortfall | run_to_completion/main.c:401-451 | for every stream, zero upper halves included, the packets of all but the first two flows are the third counter plus the shortfall: 0, unless upper half 0 is one of the two and two other flows come, and then the packets of the second of these less the packets with upper half 0 after its first |
| FlowCells.OverflowWrong | run_to_completion/main.c:401-451 | three packets of three flows after which the third counter is 0 |
| FlowTables.Masks | pthread/main.c:1340-1348 | for every width the mask loop gives the low bits set and its shifted copy |
| FlowTables.HalvesDetermineHash | pthread/main.c:961-962 | at 16 bits the split into low and high half is a bijection onto pairs of 16-bit halves |
| FlowTables.NeighboursCommute | run_to_completion/main.c:695-834 | updates of different buckets commute |
| FlowTables.LuaCounts | scripts/flow-level.lua:43-54 | the plain map holds, for each hash, its number of occurrences |
| FlowTables.TableRefinesLua | scripts/flow-level.lua:43-54 | the table gives the plain map's count for every hash if and only if in no bucket a nonzero flow first appears after a packet with upper half 0 |
| FlowTables.CountsWrong | scripts/flow-level.lua:43-54 | two packets after which a counter is 2 and the plain map has 1 |
| FlowTables.CountsIgnoreOrder | run_to_completion/main.c:695-834 | with nonzero upper halves the per-flow counts depend only on the multiset of packets |
| FlowTables.AllPacketsCounted | run_to_completion/main.c:695-834 | the counters of the whole table add up to the number of packets, always |
| FlowTables.EarlyStopCountsFlows | pthread/main.c:1241-1256 | the early-stopping count over all buckets plus the number of buckets that forgot their packets with upper half 0 is the number of distinct 32-bit hashes; so it is exact if and only if no bucket did |
| FlowTables.ForgottenFlow | pthread/main.c:1241-1256 | two packets of different hashes after which it is 1 |
| FlowTables.NoZeroHighNotForgotten | pthread/main.c:1241-1256 | with nonzero upper halves no bucket does |
| FlowCode.FlowList.constructor | run_to_completion/main.c:470-502 | an acyclic chain of the given positive number of empty entries |
| FlowCode.FlowList.Append | run_to_completion/main.c:594-611 | a fresh entry at the end, the rest untouched |
| FlowCode.FlowList.Take | run_to_completion/main.c:561-586 | counting in place in the first entry that is free or has the key |
| FlowCode.FlowList.CountLinkedList | run_to_completion/main.c:557-611 | the search on the heap chain terminates and computes Hit, whether it hits, claims a free entry or allocates |
| FlowCode.FlowList.CountHashList | run_to_completion/main.c:782-831 | the same for the search with its tests in the other order |
| FlowCode.FlowList.CountActive | pthread/main.c:1246-1253 | the loop that stops at the first zero counter |
| FlowCode.FlowList.CountAll | run_to_completion/main.c:1042-1050 | the loop over a whole chain: used entries and their packets |
| FlowCode.UsedIsActive | run_to_completion/main.c:1042-1050 | in a well-formed bucket the full walk and the early stop count the same |
| FlowCode.LinkedListTable.constructor | run_to_completion/main.c:461-506 | separate chains for all buckets, standing for the empty packet sequence |
| FlowCode.LinkedListTable.Count | run_to_completion/main.c:544-613 | a packet changes one chain; the table stands for one packet more |
| FlowCode.LinkedListTable.CountFlows | pthread/main.c:1241-1256 | the reported number is that of distinct hashes less the forgotten ones, so exact if and only if none is |
| FlowCode.LinkedListTable.CountEntries | run_to_completion/main.c:999-1017 | the report that walks the chains to their ends: all packets, and flows under the same exact condition |
| FlowCode.CountInSlots | run_to_completion/main.c:708-757 | the search as far as the two slots: a hit advances the bucket's cells by Hit, a miss leaves it to the chain |
| FlowCode.SlotsAreCells | run_to_completion/main.c:708-779 | the two slots behave like two more cells before the chain |
| FlowCode.HashListTable.constructor | run_to_completion/main.c:890-928 | all slots and chains empty |
| FlowCode.HashListTable.CountInBucket | run_to_completion/main.c:708-833 | slots, then chain: the bucket's cells advance by Hit and other buckets stay |
| FlowCode.HashListTable.Count | run_to_completion/main.c:695-834 | a packet makes the table stand for one packet more |
| FlowCode.HashListTable.CountBucket | run_to_completion/main.c:1029-1050 | one bucket's share of the report |
| FlowCode.HashListTable.CountFlows | run_to_completion/main.c:1026-1054 | the reported packets are all packets; the reported flows are the distinct hashes less the forgotten ones, so exact if and only if none is |
| FlowCode.DoubleHashTable.constructor | run_to_completion/main.c:867-879 | all counters zero |
| FlowCode.DoubleHashTable.CountInBucket | run_to_completion/main.c:401-451 | the branches in place |
| FlowCode.DoubleHashTable.Count | run_to_completion/main.c:390-452 | a packet makes the table stand for one packet more |
| FlowCode.DoubleHashTable.CountMiscounted | run_to_completion/main.c:985-992 | the report adds up the third counters |
| FlowCode.OverflowIsMiscounted | run_to_completion/main.c:985-992 | for every packet sequence the packets that are not of a bucket's first two flows are the reported total plus the shortfalls of the buckets; with nonzero upper halves there are none |
| FlowCode.TablesAgree | run_to_completion/main.c:401-451 | after any packets hash list and double hash have the same slots, and each third counter is the sum of that bucket's chain |
| FlowCode.HashListRefinesLua | run_to_completion/main.c:695-834 | at any time, read off the heap: no key occurs twice in a bucket's slots and chain, and every hash's counter is the plain map's count if and only if there is no late flow |
| FlowCode.LinkedListRefinesLua | run_to_completion/main.c:544-613 | the same for the linked lists |
| FlowCode.InterleavingIrrelevant | run_to_completion/main.c:695-834 | two hash-list tables on the heap that got the same packets in every bucket, however interleaved, hold the same slots and chains |
| FlowCode.ChainsIgnoreInterleaving | run_to_completion/main.c:544-613 | the same for the linked lists |
| FlowCode.MonitorLinkedList | pthread/main.c:871-1256 | initialisation, any packets, both reports: all packets, and twice the number of distinct hashes less the forgotten ones |
| FlowCode.MonitorHashList | run_to_completion/main.c:622-1054 | initialisation, any packets, report: all packets, and the number of distinct hashes less the forgotten ones |
| FlowCode.MonitorDoubleHash | run_to_completion/main.c:352-992 | initialisation, any packets, report: the miscounted packets less the shortfalls, so exactly the miscounted packets with nonzero upper halves |
| FlowGaps.GapsFollowSlots | lthread/main.c:1206-1285 | the keys and counters of the gap-keeping bucket are those of the double hash |
| FlowGaps.MeanTelescopes | lthread/main.c:1206-1268 | in real arithmetic, after any packets and for each slot with a nonzero key, avg * ctr = ipg - (n - 1) with n the flow's packets and ipg 0 while n is 1 and the total at its latest packet afterwards; for any totals, so also for several packets of one burst |
| FlowGaps.MeansExact | lthread/main.c:1206-1268 | for both slots of a bucket avg * ctr = ipg - (ctr - 1), if and only if no packet with upper half 0 precedes the first packet of one of the bucket's first two other flows |
| FlowGaps.MeanWrong | lthread/main.c:1206-1216 | two packets after which it fails |
| FlowGaps.FedGaps | lthread/main.c:1240-1251 | for every stream a slot's estimator is given exactly the gaps between its flow's packets, in order; if the totals of packets counted one after the other fall by at most d, every gap is -1 - d or more |
| FlowGaps.FlowQuantile | lthread/main.c:1225-1251 | so for every slot with six or more gaps the estimator's heights are ordered, and its last and first height are the flow's longest and shortest gap under exactly the conditions of P2.HeightsExact, also when totals fall, by less than 2^31 - 1 |
| FlowGaps.MisreadBurst | lthread/main.c:1225-1251 | eight packets of one flow, two of them in one burst, whose longest gap is 5 and whose estimator ends in 2^64 - 1 |
| FlowGaps.UpdateGap | lthread/main.c:1222-1231 | the statements of one known-flow packet |
| FlowGaps.GapMonitor.UpdateBucket | lthread/main.c:1192-1286 | the branches of one packet, in place |
| FlowGaps.GapMonitor.CountPacket | lthread/main.c:1192-1286 | one packet counted with any total, so also between packets of other bursts: the table stands for one packet more |
| FlowGaps.GapMonitor.Begin | lthread/main.c:1169-1176 | the start of a burst: its thread's counter grows, and the total over all threads is returned |
| FlowGaps.GapMonitor.Burst | lthread/main.c:1169-1287 | a burst without another one in between: all its packets are counted with the total after it; bursts counted one after the other have totals that never fall |
| FlowGaps.MonitorFeeds | lthread/main.c:1225-1268 | at any time, however the packets of several bursts were interleaved, read off the monitor: every slot's estimator has been given its flow's gaps, all -1 or more if bursts were counted one after the other |
| Pipeline.PacketsConserved | lthread/main.c:1069-1106 | in every reachable state in which no rx thread is between receiving and accounting, packets received = sum of re + packets in rings + ring_loss; ring_loss as RingLossExact says |
| PipelineRings.RingsNeverOverfull | lthread/main.c:1084-1086 | in every reachable state no ring holds more than its capacity |
| PipelineRings.OnlyFullRingsRefuse | lthread/main.c:1084-1105 | whenever an rx thread hands over a burst, the ring then holds the old queue followed by the accepted part, the rest is what remains of the burst, and if anything remains the ring is full |
| PipelineRings.RingLossExact | lthread/main.c:1084-1105 | for every run ring_loss, between hand-overs, is exactly the number of packets for which there was no room |
| PipelineRings.LargeRingsLoseNothing | lthread/main.c:59-918 | if a ring has room for the whole pool, as with the 4096 buffers and 262143 places of the source, no run loses a packet to a ring |
| PipelineRings.DequeueTakesMost | lthread/main.c:1164-1171 | a monitor takes the oldest packets, up to 256, leaves some only if it got 256, adds as many to re, and is about to wait exactly if it found none |
| PipelineRings.RePerThread | lthread/main.c:1169 | in every reachable state each rx thread's re is what its own monitors have dequeued |
| PipelineRings.NobodyStuck | lthread/main.c:1069-1293 | in every reachable state every rx thread, and every monitor that does not wait, can make its next step |
| PipelineRings.TableOfProcessed | lthread/main.c:1178-1286 | in every reachable state the table is what the double hash makes of a sequence that has every hash as often as the monitors have processed it |
| Pipeline.BuffersOwnedOnce | lthread/main.c:1073-1189 | in every reachable state each buffer is free or in exactly one place, and has been freed once per completed reception |
| Pipeline.TableMatchesRe | lthread/main.c:1164-1286 | between bursts the table's counters add up to the sum of re |
| Pipeline.RingsKeepOrder | lthread/main.c:1084-1166 | what a ring's monitor has processed, holds and has yet to dequeue is what was enqueued, in that order |
| Pipeline.ProcessedInArrivalOrder | lthread/main.c:1073-1189 | what a monitor has processed is a subsequence of what was received: no ring reorders packets between arrival and monitor |
| Pipeline.RingsTakeTurns | lthread/main.c:1081 | of any n successive bursts of an rx thread with n rings no two go to the same ring |
| Pipeline.BacklogBound | lthread/main.c:1081-1096 | for every sequence of steps len is at most 255, and a waiting monitor's ring holds at most the packets not yet signalled if and only if the sequence has no signal, sent with packets in the ring, between the monitor's last empty dequeue and its wait |
| Pipeline.NothingLost | lthread/main.c:1164-1293 | if finding the ring empty and waiting are one step no signal is ever lost |
| Pipeline.AtomicBacklogBound | lthread/main.c:1081-1096 | then a waiting monitor's ring never holds more than len packets, at most 255, between rx iterations |
| Pipeline.LostWakeup | lthread/main.c:1164-1293 | otherwise it can: a run on a ring of the size the code creates that leaves a monitor waiting on 256 packets with len 0 |
| Pipeline.SignalSpacing | lthread/main.c:1089-1096 | consecutive signals on a ring are 256 to 511 enqueued packets apart |
| Pipeline.KeepsInv | lthread/main.c:1069-1293 | every possible step of every thread keeps the whole invariant |
| Pipeline.StartInv | lthread/main.c:1046-1070 | the initial state satisfies it |
| Pipeline.KeepsOwned | lthread/main.c:1073-1189 | each step keeps each buffer in one place |
| Pipeline.KeepsConserved | lthread/main.c:1073-1171 | each step keeps received = re + queued + lost + undecided |
| Pipeline.KeepsChannel | lthread/main.c:1081-1293 | each step keeps each ring's order and its signal accounting |
| Pipeline.KeepsArrived | lthread/main.c:1073-1106 | each step keeps each ring's packets a subsequence of those received |

## Left out

- spooky_hash64 and spooky_hash32, thin wrappers of spooky_hash128; the big-endian and aligned-read branches of toeplitz/spooky.c.
- Injectivity of the truncated 128-bit Spooky output, which does not follow from the code; its statistical claims.
- Floating-point rounding, in the quantile estimator and in the gap means. The quantile P is a parameter of the model instead of 0.99.
- SpookyStream.SpookyState.Update: the 64-bit length counter is unbounded and the total is required to stay below 2^64.
- Pipeline.KeepsInv: the loops of lthread_rx and lthread_tx_per_ring are steps of a state machine over values, not methods; an rx thread's several queues are one source of bursts; in each Process step the buffer is freed and its packet counted together.
- Pipeline.RingsKeepOrder: a ring is a queue with a capacity; the lock-free ring of DPDK is not modelled.
- The initialisation of condition variables, one per receive queue although there is one per ring (lthread/main.c:1055-1056): the model takes every ring to have its own.
- The gap statistics of chain entries of HASH_LIST, whose hit branch does not refresh ipg (run_to_completion/main.c:787-796), and those of LINKED_LIST chains; stdDev, which is an absolute value; timestamps.
- HASH_LIST and DOUBLE_HASH of pthread/main.c: the first adds packet counts into the flow count in its report, the second has no overflow increment.
- FlowTables.Masks: the number of bits is a parameter; its computation by floating-point logarithms is left out.
- FlowGaps.GapMonitor.Burst: monitors whose bursts overlap are covered packet by packet, by CountPacket with the total a burst began with; how far such totals can fall is not derived from `Pipeline`.
- FlowGaps.GapMonitor.CountPacket: a slot lists the gaps handed to its estimator; the estimator itself is `P2.Quantile`, not one object per slot.
- rx loop of pthread/main.c, which does not account for failed enqueues.
- Toeplitz hashing, whose code is not in the repository; DPDK set-up and device calls; hardware/main.c.
- Thread creation, affinity and scheduling; screens, printing and configuration parsing.
