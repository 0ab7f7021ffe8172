# Cache-timing attack core, modelled in Dafny

This project models the hardware-independent logic of two cache-timing
side-channel attack programs for RISC-V cores. The first attacks the RSD core
(`code.c`). The second is the Spectre-BCB (bounds-check bypass) demonstration
(`src/Spectre-BCB.c`). Both share two headers: the L1 data-cache geometry and
eviction routine (`inc/cache.h`), and the top-two scan (`inc/util_shared.h`).

The files:

- `bits.dfy` (module `Bits`): C's unsigned bitwise operators as exact
  arithmetic on naturals: `And`, `Or`, `Xor`, `Not`, shifts, and 32/64-bit
  wrap-around. It also proves lemmas tying contiguous masks to `%` and `/`.
- `cache.dfy` (module `Cache`): the cache geometry.
  - `OFFSET_MASK`, `SET_MASK` and `TAG_MASK`, and the fields they extract.
  - The number of sets `flushCache` clears, the tag-aligned base inside
    `dummyMem`, and the exact sequence of addresses it loads
    (`EvictionSchedule`).
  - The class `EvictionEngine`, whose `FlushCache` method runs the nested
    set/way loop. It records every load and updates `flush_junk`.
- `aggregate.dfy` (module `Aggregate`): the top-two scan `TopTwoIdx` and its
  top-one twin `ResultOutput`, as array loops. They are proved against
  specification functions: `Top`, `Leader` (the lowest index holding the
  top), `RunnerUp` and `RunnerUpIdx`.
- `probe.dfy` (module `Probe`): the mixer `(i*65+1) & 255` and its inverse,
  the hit rule of one probe sweep (`Swept`), and the counts after a number of
  rounds (`Tally`).
- `rsd_attack.dfy` (module `RsdAttack`): the RSD program.
  - Its globals, `cacheAttack`, and the per-offset loop of `main`: counts
    reset, rounds, junk fold, top-one report, `attackIdx` advance.
  - The gadget calls go into a ghost call trace.
- `spectre_bcb.dfy` (module `SpectreBcb`): the Spectre-BCB program.
  - The branch-free train/attack select and the training loop.
  - The timed reads that skip the training value.
  - The per-offset loop that records one guessed byte per offset in
    `guessString`.

Timer readings, `rand()` results and the victim gadgets are not modelled.
Timer readings are a latency input (`lat`), `rand()` results are inputs
(`fill`, `pick`), and gadget calls are recorded in order in a ghost trace
(`calls`) and change nothing else the model holds. The uninitialised values
(`dummy` and `output[0]` in `src/Spectre-BCB.c`) are constructor parameters.

Properties proved include:

- **Masks.** The three masks partition the 32-bit word.
- **Eviction schedule.**
  - Every scheduled load has offset 0 and hits the i-th set of the target.
  - The loads are pairwise distinct.
  - They stay inside `dummyMem` whenever the target's sets do not wrap past
    the last set; `Cache.CarryLeavesDummyMem` shows that this proviso is
    needed.
  - Every set of a block-aligned target is covered;
    `Cache.UnalignedTargetMissesLastSet` shows that an unaligned target can
    miss its last set.
- **Eviction traffic.** Every round of both programs loads exactly the
  eviction schedules of its flushes, in order, and leaves `flush_junk` at the
  byte of the last address. A whole run loads one round's schedule
  `ATTACK_ROUNDS` times per offset (`Cache.RepeatNest` relates that to a
  single repetition count).
- **Scans.** Each scan reports the maximum, the lowest index holding it, and
  the runner-up counted with multiplicity.
- **Mixer and counting.**
  - The mixer is a bijection on 0..255.
  - A sweep counts exactly the fast candidates, minus the training value.
  - In the RSD program, `dummy` stays 0.
- **Guessing.** A secret byte read fast in every round, and beaten by no other
  candidate, is the one reported.

## Model

| member | source | states |
|---|---|---|
| Cache.MasksPartition | inc/cache.h:19-24 | the offset, set and tag masks are pairwise disjoint and their OR is FULL_MASK |
| Cache.MaskValues | inc/cache.h:19-23 | the masks as written evaluate to 0x7, 0x3FF8 and 0xFFFFC000 |
| Cache.MaskConstants | inc/cache.h:19-21 | OFFSET_MASK (complement of FULL_MASK shifted by 3) is 0x7 and TAG_MASK (FULL_MASK shifted by 14, kept to 32 bits) is 0xFFFFC000 |
| Cache.TagOffsetDisjoint | inc/cache.h:19-21 | the tag and offset masks share no bit |
| Cache.TagOffsetUnion | inc/cache.h:23 | TAG_MASK OR OFFSET_MASK, the value SET_MASK complements, is 0xFFFFC007 |
| Cache.AddressFields | inc/cache.h:19-37 | masking an address gives its offset (address mod 8), its set bits and its tag (address rounded down to 2^14); the three add up to the address, and the set index shifted out of the set bits is (address / 8) mod 2048 |
| Cache.SetIndexValue | inc/cache.h:77 | the set index extracted with SET_MASK and the shift is the address's set number |
| Cache.OffsetValue | inc/cache.h:60 | masking with OFFSET_MASK keeps the address modulo the block size |
| Cache.CeilBlocks | inc/cache.h:58-62 | the number of blocks covers n bytes and one block fewer would not |
| Cache.SetsToClear | inc/cache.h:63-66 | the set count is capped at the number of sets |
| Cache.SourceSetCount | inc/cache.h:58-62 | the shift plus one for a non-zero offset is the size rounded up to blocks |
| Cache.SetCount | inc/cache.h:57-66 | the step-by-step computation of numSetsClear (shift, add one, cap) equals min(ceil(memSize / 8), 2048) |
| Cache.SourceAlignedBase | inc/cache.h:72 | (dummyMem + capacity) masked with TAG_MASK in 32 bits is the tag-aligned base |
| Cache.AlignedMem | inc/cache.h:72 | the computed alignedMem is the tag-aligned base of dummyMem |
| Cache.AlignedBaseFields | inc/cache.h:68-72 | alignedMem has zero set bits and zero offset bits |
| Cache.AlignedBaseBounds | inc/cache.h:68-72 | when dummyMem plus its size does not wrap 32 bits, dummyMem < alignedMem and a whole cache capacity from alignedMem lies inside dummyMem |
| Cache.SourceOffsets | inc/cache.h:77-83 | the shifts that form setOffset and wayOffset are multiplications by 8 and by 2^14, with no truncation |
| Cache.SetOffset | inc/cache.h:77 | setOffset of iteration i is (set index of memAddr + i) * 8 |
| Cache.WayOffset | inc/cache.h:83 | wayOffset of way j is j * 2^14 |
| Cache.SourceLoad | inc/cache.h:87 | alignedMem + setOffset + wayOffset, in 32-bit arithmetic, is the scheduled address of set i, way j |
| Cache.LoadAddressBlock | inc/cache.h:72-87 | every loaded address is the aligned base plus a set offset plus a way offset, modulo 2^32 |
| Cache.LoadAddressSet | inc/cache.h:75-87 | every loaded address has offset 0 and lies in set (set of memAddr + i) mod 2048 |
| Cache.ScheduleFields | inc/cache.h:75-87 | every scheduled load has zero offset bits, and the load of iteration i hits the i-th set of the target range |
| Cache.LoadAddressWays | inc/cache.h:81-87 | the two ways of a set differ only by one tag step (2^14, modulo 2^32) |
| Cache.ScheduleWays | inc/cache.h:81-87 | in the schedule, the second way of each set is the first way plus one tag step |
| Cache.ScheduleDistinct | inc/cache.h:75-87 | the numSetsClear × 2 loaded addresses are pairwise distinct |
| Cache.LoadInDummyMem | inc/cache.h:72-87 | with no 32-bit wrap of dummyMem and no carry past the last set, the load of set i, way j lies inside dummyMem |
| Cache.ScheduleInDummyMem | inc/cache.h:42-87 | when set index of memAddr + numSetsClear <= 2048, every address loaded lies inside dummyMem |
| Cache.CarryLeavesDummyMem | inc/cache.h:72-87 | without that proviso a load leaves dummyMem: a 16-byte target in the last set, with dummyMem at 0x10000, loads the byte just past the buffer |
| Cache.SetDistance | inc/cache.h:75-77 | the set of block q is reached from the set of block p in fewer than 2048 steps, and in no more than q - p |
| Cache.CoveringSet | inc/cache.h:58-77 | for a block-aligned target, each byte's set is (target set + t) mod 2048 for some iteration t < numSetsClear |
| Cache.TargetSetsCovered | inc/cache.h:48-87 | for a block-aligned target, every byte's set is hit by some scheduled load |
| Cache.UnalignedTargetMissesLastSet | inc/cache.h:58-87 | a target not starting on a block boundary can miss its last set: bytes 4..11 span sets 0 and 1, but only set 0 is loaded |
| Cache.SetLoadsAt | inc/cache.h:75-89 | the k-th load of the first n sets is way k mod 2 of set k / 2 |
| Cache.SetLoadsSchedule | inc/cache.h:75-89 | the loads of the first numSetsClear sets, set by set and way by way, are the eviction schedule |
| Cache.RepeatAt | code.c:200-204 | n identical flushes load n times as many addresses, the k-th being load k mod \|s\| of one flush |
| Cache.RepeatSplit | code.c:200-204 | the loads of a + b identical flushes are those of the first a followed by those of the other b |
| Cache.RepeatNest | code.c:192-204 | n offsets of r identical rounds load exactly what n·r rounds load |
| Cache.EvictionEngine.constructor | inc/cache.h:45-47 | flush_junk starts at 0, nothing has been loaded, and every byte of the zero-initialised dummyMem reads 0 |
| Cache.EvictionEngine.FlushJunkZero | inc/cache.h:45-87 | when the target's sets do not run past the last set, every byte a flush loads reads 0, so flush_junk stays 0 |
| Cache.EvictionEngine.EvictSet | inc/cache.h:81-89 | the way loop of set i loads way 0 then way 1 of that set; flush_junk holds the byte of the last load |
| Cache.EvictionEngine.FlushCache | inc/cache.h:55-91 | the loads are exactly the eviction schedule, in order; flush_junk is the byte at the last scheduled address, or unchanged when nothing is loaded; nothing else changes |
| Bits.AndLowMask | inc/cache.h:19 | masking with 2^k - 1 is reduction modulo 2^k |
| Bits.AndFieldMask | inc/cache.h:77 | masking with the one-bits lo..hi-1 keeps x mod 2^hi minus x mod 2^lo |
| Bits.AndHighMask | inc/cache.h:72 | on a value below 2^hi, masking with bits lo..hi-1 rounds down to a multiple of 2^lo |
| Bits.ShrDiv | inc/cache.h:58 | an unsigned right shift by k divides by 2^k |
| Bits.OrPlusAnd | inc/cache.h:23 | x OR y plus x AND y is x + y |
| Bits.OrDisjoint | inc/cache.h:23 | the OR of disjoint bit sets is their sum |
| Bits.XorCancel | src/Spectre-BCB.c:211 | XOR-ing with x twice gives back the other operand |
| Bits.XorOne | src/Spectre-BCB.c:242 | XOR with 1 flips the low bit: +1 on an even value, -1 on an odd one |
| Bits.NotIsComplement | inc/cache.h:19-23 | `~x` on a width-bit value is its complement: `x & ~x` is 0 and `x \| ~x` is all width ones |
| Probe.MixValue | code.c:93-113 | the mixer (i*65+1) & 255 is (i*65+1) mod 256 |
| Probe.UnmixMix | src/Spectre-BCB.c:227 | the inverse map recovers the loop index from the mixed candidate |
| Probe.MixUnmix | src/Spectre-BCB.c:227 | the mixer applied to the inverse gives back the candidate |
| Probe.MixPermutation | code.c:112-113 | as i runs over 0..255 the mixer visits every candidate exactly once |
| Probe.MixIff | src/Spectre-BCB.c:227 | the mixer sends i to v exactly when the inverse sends v to i |
| Probe.TallyStart | code.c:195-197 | before any round every count is 0 |
| Probe.TallyNext | src/Spectre-BCB.c:195-236 | the counts after one more round are the counts so far swept once more with that round's latencies and exclusion |
| Probe.TallyBound | src/Spectre-BCB.c:195-236 | after some rounds no count exceeds the number of rounds |
| Probe.ExcludedNeverCounted | src/Spectre-BCB.c:233-234 | a candidate excluded in every round is never counted |
| Probe.AlwaysHitCounted | src/Spectre-BCB.c:233-234 | a candidate read fast and not excluded in every round is counted in every round |
| Probe.ConsistentHitWins | code.c:200-234 | if one candidate is counted every round and every other in fewer, it is the unique top and the leader |
| Aggregate.MaxExceptIsMax | inc/util_shared.h:46-55 | the maximum, skipping one position, bounds every other entry and is 0 or attained |
| Aggregate.FirstIndexIsFirst | inc/util_shared.h:46-50 | the first index of a value holds it and no earlier index does |
| Aggregate.MaxExceptUnique | inc/util_shared.h:46-55 | a bound that is attained (or 0) is the maximum |
| Aggregate.FirstIndexUnique | inc/util_shared.h:46-50 | an index holding v with no earlier one holding it is the first index of v |
| Aggregate.LeaderIsFirstMax | inc/util_shared.h:42-50 | the top is at least every entry; when positive, the leader holds it and every earlier entry is smaller |
| Aggregate.RunnerUpBelowTop | inc/util_shared.h:45-55 | the runner-up is at most the top, and when positive it sits at another index than the leader |
| Aggregate.TiedMaxima | inc/util_shared.h:46-55 | with two equal maxima the lower index ranks first and the higher second, both with the top value |
| Aggregate.AllZero | inc/util_shared.h:42-43 | a table of zeros has top and runner-up 0 |
| Aggregate.StepNewTop | inc/util_shared.h:46-50 | an entry above the top becomes the leader and the old top becomes the runner-up, at the old leader's index |
| Aggregate.StepNewRunnerUp | inc/util_shared.h:52-54 | an entry above the runner-up but not the top becomes the runner-up and leaves the top alone |
| Aggregate.StepNoChange | inc/util_shared.h:45-56 | an entry not above the runner-up changes neither rank nor index |
| Aggregate.TopTwoUpdate | inc/util_shared.h:45-56 | each branch of the three-way update keeps the report right for one more entry |
| Aggregate.TopTwoIdx | inc/util_shared.h:40-57 | outValArray[0..1] hold the top and the runner-up; outIdxArray[0] the lowest index of the top as a byte (untouched if all zero); outIdxArray[1] the runner-up's index, or the shifted old first index, or untouched; only slots 0 and 1 change |
| Aggregate.TopOneStep | code.c:134-139 | an entry above the top becomes the leader; otherwise top and leader stay |
| Aggregate.StepNotAboveTop | code.c:135 | an entry not above the top changes neither top nor leader |
| Aggregate.TopOneUpdate | code.c:134-139 | the strict-greater update keeps the top-one report right for one more entry |
| Aggregate.ResultOutput | code.c:129-139 | the index slot is within the table; a positive value slot is the stored byte of the count at that index; while counts are below 256 the result is the maximum and the lowest index holding it, 0 and 0 for an all-zero table; only slot 0 changes |
| RsdAttack.IndexAfterValue | code.c:254 | attackIdx after n offsets is the start plus n, modulo 2^32 |
| RsdAttack.OffsetCallsShape | code.c:200-226 | every round on offset len makes three calls: the flush of probeArray, victimFuncInit and exactly victimFunc_0len, at that offset's attackIdx |
| RsdAttack.OffsetTallyFits | code.c:200-234 | every count of an offset is at most ATTACK_ROUNDS, so the byte-wide value slot loses nothing |
| RsdAttack.RoundLoads | code.c:204 | one round loads L1_DCACHE_WAYS addresses for each of the ARRAY_SIZE_FACTOR sets the probe-array flush clears |
| RsdAttack.SwappedSlotStores | code.c:129-138 | with the index and value slots swapped as at the call on line 234, an index below 256 is stored as the four bytes idx, 0, 0, 0, and a count store changes only the low byte of hitArray[0], which equals the count exactly when hitArray[0] was below 256 |
| RsdAttack.SwappedSlotsExample | code.c:234 | with ATTACK_ROUNDS hits at byte 65 only, the report is (65, ATTACK_ROUNDS); the index store writes the bytes 65, 0, 0, 0 from output[0] on, and a hitArray[0] of 300 becomes 256 + ATTACK_ROUNDS |
| RsdAttack.Program.constructor | code.c:87-105 | the globals start zero: every byte of guideArray and probeArray, every count, both output and hitArray slots, dummy and mixed_i; no gadget has been called |
| RsdAttack.Program.Setup | code.c:168-175 | every guideArray and probeArray byte is 1 |
| RsdAttack.Program.ClearResults | code.c:195-197 | results is all zero |
| RsdAttack.Program.CacheAttack | code.c:107-124 | results gains one at exactly the candidates read faster than the threshold; dummy keeps only its low bit; mixed_i ends at the last mixed candidate |
| RsdAttack.Program.AttackRound | code.c:202-226 | one round records the flush and gadget calls and sweeps the counts once; dummy keeps its low bit, mixed_i ends at the last mixed candidate; the engine loads the probe-array eviction schedule and flush_junk is the byte at its last address |
| RsdAttack.Program.AttackRounds | code.c:200-227 | from cleared counts, the rounds leave the tally of those rounds, record each round's calls, and load the probe-array schedule once per round; mixed_i, dummy and flush_junk are as the last round leaves them, unchanged for zero rounds |
| RsdAttack.Program.AttackOffset | code.c:195-234 | from dummy == 0, one offset leaves its tally in results and shows the lowest index with the highest count and that count (0, 0 if none) in output[0] and hitArray[0], the second slots untouched, as the call at code.c:234 intends (see Findings); dummy stays 0; the loads are ATTACK_ROUNDS probe-array schedules and flush_junk the last one's final byte |
| RsdAttack.Program.RunOffset | code.c:192-256 | one pass of the offset loop appends that offset's top-one report, its calls and its loads, and advances attackIdx by one |
| RsdAttack.Program.AttackSecret | code.c:192-256 | after the set-up, for each of the SECRET_LENGTH offsets what is shown is that offset's top-one report; the calls are those of each offset at attackIdx advanced by one per offset; the loads are ATTACK_ROUNDS probe-array schedules per offset; the last offset's tally and report stay in results, output[0] and hitArray[0]; dummy stays 0 |
| RsdAttack.Program.Run | code.c:162-256 | the set-up leaves every guideArray and probeArray byte 1; then for each of the SECRET_LENGTH offsets, what is shown is that offset's top-one report; the calls are those of each offset at attackIdx advanced by one per offset; the loads are ATTACK_ROUNDS probe-array schedules per offset; the last offset's tally and report stay in results, output[0] and hitArray[0]; dummy stays 0 |
| SpectreBcb.ClearLowHalfWord | src/Spectre-BCB.c:209 | -1 with its low 16 bits cleared is 0xFFFF...0000 |
| SpectreBcb.MaskOfMinusOne | src/Spectre-BCB.c:209-210 | from -1 the mask step gives all 64 bits set |
| SpectreBcb.MaskOfSmall | src/Spectre-BCB.c:209-210 | from a value below 2^16 the mask step gives 0 |
| SpectreBcb.TrainMaskValue | src/Spectre-BCB.c:209-210 | the mask of step j is all ones when j mod (TRAIN_TIMES+1) is 0 and 0 otherwise |
| SpectreBcb.SelectByMask | src/Spectre-BCB.c:211 | the XOR select with an all-ones mask gives attackIdx, with a zero mask randIdx |
| SpectreBcb.PassInIdxSelect | src/Spectre-BCB.c:207-211 | passInIdx is attackIdx when j mod (TRAIN_TIMES+1) is 0 and randIdx otherwise |
| SpectreBcb.TrainingStep | src/Spectre-BCB.c:207-211 | for j from TRAIN_TIMES-1 down to 0, passInIdx is attackIdx exactly when j is 0 |
| SpectreBcb.RandIdx | src/Spectre-BCB.c:205 | randIdx is a valid guideArray index |
| SpectreBcb.ExclusionsAt | src/Spectre-BCB.c:205-233 | round r of an offset leaves out guideArray[randIdx] of that round |
| SpectreBcb.IndexAfterValue | src/Spectre-BCB.c:252 | attackIdx after n offsets is the start plus n, modulo 2^64 |
| SpectreBcb.RoundLoads | src/Spectre-BCB.c:198-199 | one round loads the schedule of the 8-byte flush at address 256 (one set), then that of the probe-array flush (ARRAY_SIZE_FACTOR sets): L1_DCACHE_WAYS addresses per set |
| SpectreBcb.ScannedBounds | src/Spectre-BCB.c:190-242 | before the scan every results[v] with v != 0 is at most ATTACK_ROUNDS; results[0] is at most one more, because dummy is reduced to one bit by the reads |
| SpectreBcb.TrainingValueNeverCounted | src/Spectre-BCB.c:233-234 | a value that is the training value in every round of an offset has count 0 |
| SpectreBcb.FoldKeepsLeader | src/Spectre-BCB.c:242-243 | folding a single bit into results[0] keeps a strict leader with an even count the leader |
| SpectreBcb.ConsistentHitLeads | src/Spectre-BCB.c:195-243 | for any even, positive number of rounds, a candidate counted every round and beating all others stays the leader after the fold |
| SpectreBcb.SecretWins | src/Spectre-BCB.c:195-243 | if the secret byte is read fast and is not the training value in every round, and every other candidate is counted in fewer rounds, the scan reports the secret byte |
| SpectreBcb.WordScanDoublesGuess | src/Spectre-BCB.c:243 | scanning the 64-bit results table as 32-bit words reports index 130 for a secret byte 65 |
| SpectreBcb.PackedHitsHalves | src/Spectre-BCB.c:160-245 | 32-bit stores of top and runner-up through `(uint32_t*)hitArray` put the top in the low half of hitArray[0] and the runner-up in its high half, leave hitArray[1] alone, and hitArray[0] equals the top only when the runner-up is 0 |
| SpectreBcb.WordStorePacksHits | src/Spectre-BCB.c:243-245 | with counts 40 at byte 65 and 3 at byte 66, the word scan finds top 40 and runner-up 3, and hitArray[0] then reads 40 + 3·2^32 while hitArray[1] stays 0 |
| SpectreBcb.NulString | src/Spectre-BCB.c:162-166 | guessString has the requested number of slots, all NUL |
| SpectreBcb.Program.constructor | src/Spectre-BCB.c:151-160 | results starts zero; dummy and output[0], left uninitialised by main, hold the given values |
| SpectreBcb.Program.Setup | src/Spectre-BCB.c:170-178 | guideArray holds rand() mod 257 stored in a byte, and every probeArray byte is 1 |
| SpectreBcb.Program.ClearResults | src/Spectre-BCB.c:189-192 | results is all zero |
| SpectreBcb.Program.Train | src/Spectre-BCB.c:207-222 | the training loop calls the victim TRAIN_TIMES-1 times with randIdx, then once with attackIdx |
| SpectreBcb.Program.TimeReads | src/Spectre-BCB.c:224-236 | results gains one at exactly the candidates read faster than the threshold that are not guideArray[randIdx]; dummy keeps only its low bit |
| SpectreBcb.Program.AttackRound | src/Spectre-BCB.c:197-236 | one round records the two flushes and the training calls, then sweeps the counts, excluding that round's training value; dummy keeps its low bit, mixed_i ends at the last mixed candidate; the engine loads both flush schedules in order and flush_junk is the probe flush's last byte |
| SpectreBcb.Program.NextRound | src/Spectre-BCB.c:195-237 | one more round extends the tally and the call trace of the offset by that round's, and the loads by that round's two flush schedules; dummy keeps the low bit, mixed_i and flush_junk are as the round leaves them |
| SpectreBcb.Program.AttackRounds | src/Spectre-BCB.c:195-237 | from cleared counts, the rounds leave the tally with each round's training value excluded, record each round's calls and load each round's two flush schedules; mixed_i, dummy and flush_junk are as the last round leaves them, unchanged for zero rounds |
| SpectreBcb.Program.AttackOffset | src/Spectre-BCB.c:189-243 | results holds the folded counts; output[0] is their leader (or keeps its old byte when all are 0); output[1] is the runner-up's index byte when the runner-up count is positive, else the old output[0] when exactly one count is positive, else unchanged; hitArray[0] holds the top and hitArray[1] the runner-up, as the report intends (see Findings); the loads are ATTACK_ROUNDS round schedules, flush_junk and mixed_i as the last round leaves them |
| SpectreBcb.Program.GuessOffset | src/Spectre-BCB.c:187-252 | one pass of the offset loop stores the guess of offset len in guessString[len] and output[0], appends that offset's calls and loads, and returns attackIdx advanced by one |
| SpectreBcb.Program.GuessAll | src/Spectre-BCB.c:187-253 | guessString[len] is the guess of offset len for every len, and the final NUL stays; the calls and loads of every offset are appended, and mixed_i and flush_junk are as the last offset leaves them |
| SpectreBcb.Program.Run | src/Spectre-BCB.c:131-253 | the whole main: a NUL-filled guessString of length n + 1, filled with the guesses of the n offsets; the calls of every round of every offset; the loads of every round's two flushes; mixed_i and flush_junk as the last offset leaves them |

## Left out

- The victim gadgets (`inc/gadget.h` and `victimFunc` in `src/Spectre-BCB.c`). They are floating-point delay chains whose point is speculative execution. They are modelled only as calls recorded in a ghost trace, with no effect on the modelled state.
- `READ_CSR` timer reads (`inc/util_riscv.h`). The cycle difference of each read is an input `lat`.
- Whether a load evicts a line or hits the cache. That is the hardware replacement policy: the model states which addresses are loaded, not what the cache holds.
- `printf`, the ANSI colour codes and the writes to the memory-mapped `outputAddr`. `RsdAttack.Program.Run` returns the (value, hit count) pair shown for each offset instead.
- `dynamicInputString`, `malloc`/`free`, `strlen`. The secret's length is the parameter `n` of `SpectreBcb.Program.Run`, and the starting `attackIdx` is a parameter.
- `rand`/`srand`/`time`. Each `rand()` result is an input: `fill(i)` for `guideArray[i]`, and `pick(len)(r)` for round `r` of offset `len`.
- Address width. `flushCache` takes a `uint32_t` address, and on the 64-bit host `(uint64_t)probeArray` is truncated into it. The model takes the probe address as a 32-bit parameter.
- `flushCache(guideArraySize, sizeof(guideArraySize))` at src/Spectre-BCB.c:198 passes the value 256 where an address is expected. The model passes that value as the address, as the source does.
- Element types of the count and output arrays. Counts are unbounded naturals (`array<nat>`): at most 40 rounds cannot overflow a 32- or 64-bit counter. code.c:234 passes `output` (bytes) as the `uint32_t*` index array and `hitArray` (32-bit words) as the `uint8_t*` value array; this is a row of the Findings table. `Aggregate.ResultOutput` keeps the value slot one byte wide, as its parameter type dictates, and the corrected `RsdAttack.Program.AttackOffset` puts the index in output[0] and the count in hitArray[0].
- Aggregate.TopTwoIdx: the model scans the 64-bit counts as 64-bit values and stores the top and the runner-up into two separate 64-bit slots. The call at src/Spectre-BCB.c:243 reads the counts and writes `hitArray` through `uint32_t*` pointers; both are rows of the Findings table, each with a member modelling the code as written.
- Aggregate.ResultOutput: the exact-result clause is stated only while every count is below 256. Above that, the byte-wide value slot makes later comparisons against a truncated value. The model computes that behaviour but the contract does not characterise it.
- The disabled `MULTIPLIER` repeat loop at inc/cache.h:80 and the commented-out calls. They are not part of the code.

## Findings

| source | as written | input that shows it | evidently intended | confidence | as-written member | corrected member |
|---|---|---|---|---|---|---|
| src/Spectre-BCB.c:243 | `results` is a `uint64_t[256]` table handed to `topTwoIdx`, whose scan reads `uint32_t` entries 0..255. On a little-endian core it reads only the low and high halves of the first 128 counts, so the guessed byte is twice the secret byte, or the secret byte's count is never seen. | results[65] == 40 and every other count 0: the word scan reports index 130, not 65 | scan the 256 64-bit counts, so the guess for a byte counted every round is that byte | not executed | SpectreBcb.WordScanDoublesGuess | SpectreBcb.SecretWins |
| src/Spectre-BCB.c:243 | `hitArray` is declared `uint64_t hitArray[2]` (line 160) but `topTwoIdx` writes it through a `uint32_t*`: the top and the runner-up are stored into the two 32-bit halves of hitArray[0], and hitArray[1] is never written. The `%lu` at line 245 then prints runner-up·2^32 + top as the hit count. | top 40 and runner-up 3: hitArray[0] reads 40 + 3·2^32 and hitArray[1] keeps its old value | hitArray[0] holds the top and hitArray[1] the runner-up | not executed | SpectreBcb.WordStorePacksHits | SpectreBcb.Program.AttackOffset |
| code.c:234 | `resultOutput` takes `uint32_t* outIdxArray, uint8_t* outValArray`, but the call passes the two-byte `uint8_t output[2]` as the index array and the `uint32_t hitArray[2]` as the value array. Each index store writes four bytes from output[0]: output[1] becomes 0 and two bytes past the array are overwritten. Each count store writes only the low byte of hitArray[0]. | ATTACK_ROUNDS hits at byte 65 only, hitArray[0] == 300 on entry: the index store writes the bytes 65, 0, 0, 0 and hitArray[0] becomes 256 + ATTACK_ROUNDS | output[0] holds the index byte with output[1] untouched, and hitArray[0] holds the count | not executed | RsdAttack.SwappedSlotsExample | RsdAttack.Program.AttackOffset |
