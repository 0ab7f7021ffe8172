/**
 * The Spectre-BCB (bounds-check bypass) driver: the branch-free choice between
 * the training index and the attack index, the probe sweep that never counts
 * the training value, and the per-offset loop that records one guessed byte
 * per offset of the secret.
 *
 * The victim function is a call into code outside the model: its calls are
 * recorded, in order, in the ghost trace `calls`, and it changes nothing else
 * the model holds. The C library's `rand()` results are inputs: `fill(i)` is
 * the value drawn for guideArray[i], and `pick(len)(r)` the value drawn in
 * round r of offset len. Timer readings are the latency input
 * `lat(len)(r, i)`, the cycle difference measured for the i-th read of round
 * r of offset len.
 */
module SpectreBcb {
  import opened Bits
  import opened Cache
  import opened Aggregate
  import opened Probe

  const TRAIN_TIMES: nat := 24
  const ATTACK_ROUNDS: nat := 40
  const CACHE_HIT_THRESHOLD: nat := 43
  const ARRAY_STRIDE: nat := L1_DCACHE_BLOCK_BYTES
  const PROBE_BYTES: nat := ARRAY_SIZE_FACTOR * ARRAY_STRIDE
  /** The value of the global guideArraySize, and the size of that variable. */
  const GUIDE_ARRAY_SIZE: nat := ARRAY_SIZE_FACTOR
  const GUIDE_ARRAY_SIZE_BYTES: nat := 8

  // ---------------------------------------------------------------------------
  // The train/attack select

  /**
   * The 64-bit mask of training step j: `(j % (TRAIN_TIMES+1)) - 1` on a
   * signed 64-bit j, its low 16 bits cleared, then or-ed with itself shifted
   * right by 16.
   */
  function TrainMask(j: int): (r: nat)
  {
    Pow2Values();
    var m := And(ToU64(CRem(j, TRAIN_TIMES + 1) - 1), Not(0xFFFF, 64));
    Or(m, Shr(m, 16))
  }

  /** The index passed to the victim at training step j: randIdx or attackIdx, chosen by the mask. */
  function PassInIdx(j: int, attackIdx: u64, randIdx: u64): (r: u64)
  {
    Pow2Values();
    XorBelow(attackIdx, randIdx, 64);
    var picked := And(TrainMask(j), Xor(attackIdx, randIdx));
    XorBelow(randIdx, picked, 64);
    Xor(randIdx, picked)
  }

  /** All 64 bits set: -1 with its low half-word cleared, or-ed with itself shifted right by 16. */
  lemma MaskOfMinusOne()
    ensures Pow2(16) <= Pow2(64)
    ensures var m := And(TWO64 - 1, Pow2(64) - Pow2(16)); Or(m, Shr(m, 16)) == TWO64 - 1
  {
    Pow2Values();
    var m := And(TWO64 - 1, Pow2(64) - Pow2(16));
    ClearLowHalfWord();
    assert Shr(m, 16) == 0xFFFF_FFFF_FFFF by {
      ShrDiv(m, 16);
      ModUnique(m, 0x1_0000, 0xFFFF_FFFF_FFFF, 0);
    }
    assert And(m, Shr(m, 16)) == 0xFFFF_FFFF_0000 by {
      AndLowMask(m, 48);
      ModUnique(m, 0x1_0000_0000_0000, 0xFFFF, 0xFFFF_FFFF_0000);
    }
    OrPlusAnd(m, Shr(m, 16));
  }

  lemma ClearLowHalfWord()
    ensures Pow2(16) <= Pow2(64)
    ensures And(TWO64 - 1, Pow2(64) - Pow2(16)) == TWO64 - 0x1_0000
  {
    Pow2Values();
    AndHighMask(TWO64 - 1, 16, 64);
    ModUnique(TWO64 - 1, 0x1_0000, 0xFFFF_FFFF_FFFF, 0xFFFF);
  }

  /** A value below 2^16 with its low half-word cleared is zero, and so is the mask made from it. */
  lemma MaskOfSmall(x: nat)
    requires x < 0x1_0000
    ensures Pow2(16) <= Pow2(64)
    ensures var m := And(x, Pow2(64) - Pow2(16)); Or(m, Shr(m, 16)) == 0
  {
    Pow2Values();
    AndHighMask(x, 16, 64);
    ModBelow(x, Pow2(16));
    ShrDiv(0, 16);
  }

  /** The training mask is all ones when j is a multiple of TRAIN_TIMES + 1, and zero otherwise. */
  lemma TrainMaskValue(j: int)
    requires j >= 0
    ensures TrainMask(j) == if j % (TRAIN_TIMES + 1) == 0 then TWO64 - 1 else 0
  {
    Pow2Values();
    assert Not(0xFFFF, 64) == Pow2(64) - Pow2(16);
    var c := j % (TRAIN_TIMES + 1);
    assert CRem(j, TRAIN_TIMES + 1) == c;
    if c == 0 {
      ModUnique(-1, TWO64, -1, TWO64 - 1);
      assert ToU64(c - 1) == TWO64 - 1;
      MaskOfMinusOne();
    } else {
      ModBelow(c - 1, TWO64);
      assert ToU64(c - 1) == c - 1;
      MaskOfSmall(c - 1);
    }
  }

  /** Selecting with the all-ones mask yields attackIdx, with the zero mask randIdx. */
  lemma SelectByMask(attackIdx: u64, randIdx: u64)
    ensures Xor(randIdx, And(TWO64 - 1, Xor(attackIdx, randIdx))) == attackIdx
    ensures Xor(randIdx, And(0, Xor(attackIdx, randIdx))) == randIdx
  {
    Pow2Values();
    var d := Xor(attackIdx, randIdx);
    XorBelow(attackIdx, randIdx, 64);
    AndComm(TWO64 - 1, d);
    AndLowMask(d, 64);
    ModBelow(d, Pow2(64));
    XorComm(attackIdx, randIdx);
    XorCancel(randIdx, attackIdx);
  }

  /**
   * At a step j that is a multiple of TRAIN_TIMES + 1 the select passes
   * attackIdx, at every other step randIdx.
   */
  lemma PassInIdxSelect(j: int, attackIdx: u64, randIdx: u64)
    requires j >= 0
    ensures j % (TRAIN_TIMES + 1) == 0 ==> PassInIdx(j, attackIdx, randIdx) == attackIdx
    ensures j % (TRAIN_TIMES + 1) != 0 ==> PassInIdx(j, attackIdx, randIdx) == randIdx
  {
    TrainMaskValue(j);
    SelectByMask(attackIdx, randIdx);
  }

  /** Within one round's training loop (j below TRAIN_TIMES) only step 0 passes attackIdx. */
  lemma TrainingStep(j: int, attackIdx: u64, randIdx: u64)
    requires 0 <= j < TRAIN_TIMES
    ensures PassInIdx(j, attackIdx, randIdx) == if j == 0 then attackIdx else randIdx
  {
    ModBelow(j, TRAIN_TIMES + 1);
    PassInIdxSelect(j, attackIdx, randIdx);
  }

  /** The calls of one round's training loop: TRAIN_TIMES - 1 training calls, then the attack call. */
  function TrainingCalls(attackIdx: u64, randIdx: u64): (c: seq<Call>)
    ensures |c| == TRAIN_TIMES
  {
    seq(TRAIN_TIMES, k requires 0 <= k < TRAIN_TIMES => Victim(if k == TRAIN_TIMES - 1 then attackIdx else randIdx))
  }

  // ---------------------------------------------------------------------------
  // Random inputs

  /** A guideArray entry from a `rand()` value: taken modulo 257, then stored in a byte. */
  function GuideValue(x: nat): (r: u8)
  {
    (x % (ARRAY_SIZE_FACTOR + 1)) % TWO8
  }

  /** The guideArray contents for the `rand()` values fill(0), fill(1), .... */
  function GuideFill(fill: nat -> nat): (g: seq<u8>)
    ensures |g| == ARRAY_SIZE_FACTOR
  {
    seq<u8>(ARRAY_SIZE_FACTOR, i requires 0 <= i < ARRAY_SIZE_FACTOR => GuideValue(fill(i)))
  }

  /** The training index of a round from its `rand()` value: always a valid guideArray index. */
  function RandIdx(x: nat): (r: u64)
    ensures r < ARRAY_SIZE_FACTOR
    ensures x < ARRAY_SIZE_FACTOR ==> r == x
  {
    x % ARRAY_SIZE_FACTOR
  }

  /**
   * The values left out of the count in the first n rounds of an offset: in
   * round r the guideArray entry at that round's training index (nothing is
   * left out when the table has the wrong size).
   */
  function Exclusions(g: seq<u8>, pick: nat -> nat, n: nat): (ex: seq<int>)
    ensures |ex| == n
  {
    if n == 0 then []
    else Exclusions(g, pick, n - 1) + [if |g| == ARRAY_SIZE_FACTOR then g[RandIdx(pick(n - 1))] as int else -1]
  }

  /** Round r leaves out the training value of that round. */
  lemma {:induction false} ExclusionsAt(g: seq<u8>, pick: nat -> nat, n: nat, r: nat)
    requires |g| == ARRAY_SIZE_FACTOR && r < n
    ensures ExcludedAt(Exclusions(g, pick, n), r) == g[RandIdx(pick(r))] as int
  {
    if r < n - 1 {
      ExclusionsAt(g, pick, n - 1, r);
    }
  }

  // ---------------------------------------------------------------------------
  // Calls into code outside the model

  datatype Call =
    | Flush(memAddr: u32, memSize: u32)
    | Victim(idx: u64)

  /**
   * The calls of one attack round: the two flushes (the first passes the value
   * of guideArraySize where an address is expected), then the training loop.
   */
  function RoundCalls(probeAddr: u32, attackIdx: u64, randIdx: u64): (r: seq<Call>)
  {
    [Flush(GUIDE_ARRAY_SIZE, GUIDE_ARRAY_SIZE_BYTES), Flush(probeAddr, PROBE_BYTES)] + TrainingCalls(attackIdx, randIdx)
  }

  /** The calls of the first `rounds` rounds on one offset. */
  function OffsetCalls(rounds: nat, probeAddr: u32, attackIdx: u64, pick: nat -> nat): (r: seq<Call>)
  {
    if rounds == 0 then []
    else OffsetCalls(rounds - 1, probeAddr, attackIdx, pick) + RoundCalls(probeAddr, attackIdx, RandIdx(pick(rounds - 1)))
  }

  /** The attack index of offset n: the starting index advanced n times, with 64-bit wrap-around. */
  function IndexAfter(attackIdx0: u64, n: nat): (r: u64)
  {
    if n == 0 then attackIdx0 else Add64(IndexAfter(attackIdx0, n - 1), 1)
  }

  /** The index after n steps is the starting index plus n, wrapped to 64 bits. */
  lemma {:induction false} IndexAfterValue(attackIdx0: u64, n: nat)
    ensures IndexAfter(attackIdx0, n) == (attackIdx0 + n) % TWO64
  {
    if n > 0 {
      IndexAfterValue(attackIdx0, n - 1);
      var q := (attackIdx0 + n - 1) / TWO64;
      assert attackIdx0 + n == TWO64 * q + ((attackIdx0 + n - 1) % TWO64 + 1);
      ModAddMultiple((attackIdx0 + n - 1) % TWO64 + 1, TWO64, q);
    }
  }

  /** The calls of the first n offsets. */
  function MainCalls(n: nat, probeAddr: u32, attackIdx0: u64, pick: nat -> nat -> nat): (r: seq<Call>)
  {
    if n == 0 then []
    else MainCalls(n - 1, probeAddr, attackIdx0, pick)
         + OffsetCalls(ATTACK_ROUNDS, probeAddr, IndexAfter(attackIdx0, n - 1), pick(n - 1))
  }

  /**
   * The addresses the eviction routine loads in one attack round: those of
   * the flush of GUIDE_ARRAY_SIZE_BYTES bytes at address GUIDE_ARRAY_SIZE,
   * then those of the probe-array flush.
   */
  function RoundLoads(probeAddr: u32, dummyMem: u32): (s: seq<u32>)
    ensures |s| == L1_DCACHE_WAYS * (1 + ARRAY_SIZE_FACTOR)
  {
    EvictionSchedule(GUIDE_ARRAY_SIZE, GUIDE_ARRAY_SIZE_BYTES, dummyMem) + EvictionSchedule(probeAddr, PROBE_BYTES, dummyMem)
  }

  /** The byte the eviction routine reads last in a round: the last one of the probe-array flush. */
  function ProbeJunk(probeAddr: u32, dummyMem: u32, memory: u32 -> u8): (r: u8)
  {
    var s := EvictionSchedule(probeAddr, PROBE_BYTES, dummyMem);
    memory(s[|s| - 1])
  }

  // ---------------------------------------------------------------------------
  // What each offset reports

  /** The counts of offset len once all its rounds have run. */
  function OffsetTally(g: seq<u8>, pick: nat -> nat -> nat, lat: nat -> (nat, nat) -> nat, len: nat): (t: seq<nat>)
    ensures |t| == RESULT_ARRAY_SIZE
  {
    Tally(ATTACK_ROUNDS, lat(len), CACHE_HIT_THRESHOLD, Exclusions(g, pick(len), ATTACK_ROUNDS))
  }

  /** The junk fold: results[0] ^= dummy. */
  function Fold(t: seq<nat>, d: nat): (r: seq<nat>)
    requires |t| > 0
    ensures |r| == |t| && r[0] == Xor(t[0], d) && r[1..] == t[1..]
  {
    t[0 := Xor(t[0], d)]
  }

  /** The counts the top-two scan sees for offset len, with the junk value d folded in. */
  function Scanned(g: seq<u8>, pick: nat -> nat -> nat, lat: nat -> (nat, nat) -> nat, d: nat, len: nat): (t: seq<nat>)
    ensures |t| == RESULT_ARRAY_SIZE
  {
    Fold(OffsetTally(g, pick, lat, len), d)
  }

  /** The byte the scan leaves in output[0]: the leader if any count is positive, else the previous byte. */
  function Reported(t: seq<nat>, prev: u8): (r: u8)
  {
    if Top(t) > 0 then Leader(t) % TWO8 else prev
  }

  /**
   * The byte guessed for offset k: what the scan of that offset leaves in
   * output[0], which before the first offset holds out0.
   */
  function Guess(g: seq<u8>, pick: nat -> nat -> nat, lat: nat -> (nat, nat) -> nat, d: nat, out0: u8, k: nat): (b: u8)
  {
    Reported(Scanned(g, pick, lat, d, k), if k == 0 then out0 else Guess(g, pick, lat, d, out0, k - 1))
  }

  /** The bytes guessed for the first n offsets, in order. */
  function Guesses(g: seq<u8>, pick: nat -> nat -> nat, lat: nat -> (nat, nat) -> nat, d: nat, out0: u8, n: nat): (r: seq<u8>)
    ensures |r| == n
  {
    if n == 0 then [] else Guesses(g, pick, lat, d, out0, n - 1) + [Guess(g, pick, lat, d, out0, n - 1)]
  }

  // ---------------------------------------------------------------------------
  // Properties of the counts

  /**
   * Before the scan every count but results[0] is at most ATTACK_ROUNDS; the
   * junk fold can raise results[0] by one at most, since dummy is a single bit
   * by then.
   */
  lemma ScannedBounds(g: seq<u8>, pick: nat -> nat -> nat, lat: nat -> (nat, nat) -> nat, d: nat, len: nat)
    requires d < 2
    ensures forall v :: 0 < v < RESULT_ARRAY_SIZE ==> Scanned(g, pick, lat, d, len)[v] <= ATTACK_ROUNDS
    ensures Scanned(g, pick, lat, d, len)[0] <= ATTACK_ROUNDS + 1
  {
    var t := OffsetTally(g, pick, lat, len);
    TallyBound(ATTACK_ROUNDS, lat(len), CACHE_HIT_THRESHOLD, Exclusions(g, pick(len), ATTACK_ROUNDS));
    var u := Scanned(g, pick, lat, d, len);
    assert forall v :: 0 < v < RESULT_ARRAY_SIZE ==> u[v] == t[v] by {
      assert u[1..] == t[1..];
      forall v | 0 < v < RESULT_ARRAY_SIZE ensures u[v] == t[v] {
        assert u[v] == u[1..][v - 1];
      }
    }
  }

  /** A value that is the training value of every round of an offset is never counted there. */
  lemma TrainingValueNeverCounted(g: seq<u8>, pick: nat -> nat -> nat, lat: nat -> (nat, nat) -> nat, len: nat, v: nat)
    requires |g| == ARRAY_SIZE_FACTOR && v < RESULT_ARRAY_SIZE
    requires forall r :: 0 <= r < ATTACK_ROUNDS ==> g[RandIdx(pick(len)(r))] == v
    ensures OffsetTally(g, pick, lat, len)[v] == 0
  {
    var ex := Exclusions(g, pick(len), ATTACK_ROUNDS);
    forall r | 0 <= r < ATTACK_ROUNDS ensures ExcludedAt(ex, r) == v {
      ExclusionsAt(g, pick(len), ATTACK_ROUNDS, r);
    }
    ExcludedNeverCounted(ATTACK_ROUNDS, lat(len), CACHE_HIT_THRESHOLD, ex, v);
  }

  /**
   * If the secret byte s is read fast in every round and is never the training
   * value, while every other candidate is counted in fewer rounds, the scan
   * reports s, whatever single bit the junk fold adds to results[0].
   */
  lemma SecretWins(g: seq<u8>, pick: nat -> nat -> nat, lat: nat -> (nat, nat) -> nat, d: nat, len: nat, s: nat)
    requires |g| == ARRAY_SIZE_FACTOR && s < RESULT_ARRAY_SIZE && d < 2
    requires forall r :: 0 <= r < ATTACK_ROUNDS ==> lat(len)(r, Unmix(s)) < CACHE_HIT_THRESHOLD && g[RandIdx(pick(len)(r))] != s
    requires forall v :: 0 <= v < RESULT_ARRAY_SIZE && v != s ==> OffsetTally(g, pick, lat, len)[v] < ATTACK_ROUNDS
    ensures Top(Scanned(g, pick, lat, d, len)) > 0
    ensures Leader(Scanned(g, pick, lat, d, len)) == s
  {
    var ex := Exclusions(g, pick(len), ATTACK_ROUNDS);
    var la := lat(len);
    forall r | 0 <= r < ATTACK_ROUNDS ensures la(r, Unmix(s)) < CACHE_HIT_THRESHOLD && ExcludedAt(ex, r) != s {
      ExclusionsAt(g, pick(len), ATTACK_ROUNDS, r);
    }
    var t := Tally(ATTACK_ROUNDS, la, CACHE_HIT_THRESHOLD, ex);
    assert t == OffsetTally(g, pick, lat, len);
    ConsistentHitLeads(ATTACK_ROUNDS, la, ex, d, s);
    assert Scanned(g, pick, lat, d, len) == Fold(t, d);
  }

  /** SecretWins for any even, positive number of rounds. */
  lemma ConsistentHitLeads(rounds: nat, lat: (nat, nat) -> nat, excluded: seq<int>, d: nat, s: nat)
    requires rounds > 0 && rounds % 2 == 0 && s < RESULT_ARRAY_SIZE && d < 2
    requires forall r :: 0 <= r < rounds ==> lat(r, Unmix(s)) < CACHE_HIT_THRESHOLD && ExcludedAt(excluded, r) != s
    requires forall v :: 0 <= v < RESULT_ARRAY_SIZE && v != s ==> Tally(rounds, lat, CACHE_HIT_THRESHOLD, excluded)[v] < rounds
    ensures Top(Fold(Tally(rounds, lat, CACHE_HIT_THRESHOLD, excluded), d)) > 0
    ensures Leader(Fold(Tally(rounds, lat, CACHE_HIT_THRESHOLD, excluded), d)) == s
  {
    AlwaysHitCounted(rounds, lat, CACHE_HIT_THRESHOLD, excluded, s);
    FoldKeepsLeader(Tally(rounds, lat, CACHE_HIT_THRESHOLD, excluded), d, s, rounds);
  }

  /**
   * A single-bit fold into entry 0 keeps a strict leader with an even count
   * the leader: an odd count below it stays below after the fold.
   */
  lemma FoldKeepsLeader(t: seq<nat>, d: nat, s: nat, rounds: nat)
    requires s < |t| && d < 2 && rounds > 0 && rounds % 2 == 0
    requires t[s] == rounds
    requires forall v :: 0 <= v < |t| && v != s ==> t[v] < rounds
    ensures Top(Fold(t, d)) > 0 && Leader(Fold(t, d)) == s
  {
    var u := Fold(t, d);
    XorOne(t[0]);
    assert forall v :: 0 < v < |t| ==> u[v] == t[v] by {
      forall v | 0 < v < |t| ensures u[v] == t[v] {
        assert u[v] == u[1..][v - 1];
      }
    }
    if s == 0 {
      assert u[0] >= rounds;
    } else {
      assert u[0] < rounds;
    }
    MaxExceptUnique(u, -1, u[s]);
    FirstIndexUnique(u, u[s], -1, s);
  }

  // ---------------------------------------------------------------------------
  // How the scan reads a table of 64-bit counts

  /**
   * The table as `uint32_t` reads see a `uint64_t` array on a little-endian
   * machine: word k is the low half of entry k/2 when k is even and its high
   * half when k is odd.
   */
  function Words32(t: seq<nat>, n: nat): (w: seq<nat>)
    requires n <= 2 * |t|
    ensures |w| == n
  {
    seq(n, k requires 0 <= k < n => if k % 2 == 0 then t[k / 2] % TWO32 else t[k / 2] / TWO32 % TWO32)
  }

  /**
   * Scanning the first RESULT_ARRAY_SIZE words of the results table, as the
   * call of the top-two scan does, reports twice the leading value: a secret
   * byte 65 counted in every round comes out as 130.
   */
  lemma WordScanDoublesGuess()
    ensures var t := Zeros(RESULT_ARRAY_SIZE)[65 := ATTACK_ROUNDS];
            && Top(t) == ATTACK_ROUNDS && Leader(t) == 65
            && Top(Words32(t, RESULT_ARRAY_SIZE)) == ATTACK_ROUNDS
            && Leader(Words32(t, RESULT_ARRAY_SIZE)) == 130
  {
    var t := Zeros(RESULT_ARRAY_SIZE)[65 := ATTACK_ROUNDS];
    var w := Words32(t, RESULT_ARRAY_SIZE);
    assert t[65] == ATTACK_ROUNDS;
    MaxExceptUnique(t, -1, ATTACK_ROUNDS);
    FirstIndexUnique(t, ATTACK_ROUNDS, -1, 65);
    assert forall k :: 0 <= k < RESULT_ARRAY_SIZE && k != 130 ==> w[k] == 0 by {
      forall k | 0 <= k < RESULT_ARRAY_SIZE && k != 130 ensures w[k] == 0 {
        assert k / 2 != 65 || k % 2 == 1;
      }
    }
    assert w[130] == ATTACK_ROUNDS;
    MaxExceptUnique(w, -1, ATTACK_ROUNDS);
    FirstIndexUnique(w, ATTACK_ROUNDS, -1, 130);
  }

  /**
   * hitArray as the top-two scan leaves it when its two 32-bit count stores go
   * through a pointer to the 64-bit hitArray: the top count lands in the low
   * half of hitArray[0], the runner-up in its high half, and hitArray[1] is
   * not written.
   */
  function PackedHits(top: nat, runnerUp: nat, old1: nat): (r: seq<nat>)
  {
    [top % TWO32 + runnerUp % TWO32 * TWO32, old1]
  }

  /**
   * The halves of the packed word are the two counts, so the hit count shown
   * from hitArray[0] is the top count only when the runner-up count is 0.
   */
  lemma PackedHitsHalves(top: nat, runnerUp: nat, old1: nat)
    requires top < TWO32 && runnerUp < TWO32
    ensures PackedHits(top, runnerUp, old1)[0] % TWO32 == top
    ensures PackedHits(top, runnerUp, old1)[0] / TWO32 == runnerUp
    ensures PackedHits(top, runnerUp, old1)[0] == top <==> runnerUp == 0
    ensures PackedHits(top, runnerUp, old1)[1] == old1
  {
    var h := top + runnerUp * TWO32;
    assert PackedHits(top, runnerUp, old1)[0] == h;
    ModAddMultiple(top, TWO32, runnerUp);
    assert h / TWO32 == runnerUp by {
      assert h == TWO32 * runnerUp + top;
    }
  }

  /**
   * A secret byte 65 counted in every round and a byte 66 counted three
   * times: the word scan reports 40 and 3, and the 64-bit hitArray[0] then
   * reads 40 + 3 * 2^32.
   */
  lemma WordStorePacksHits()
    ensures var t := Zeros(RESULT_ARRAY_SIZE)[65 := ATTACK_ROUNDS][66 := 3];
            var u := Words32(t, RESULT_ARRAY_SIZE);
            && Top(u) == ATTACK_ROUNDS && RunnerUp(u) == 3
            && PackedHits(Top(u), RunnerUp(u), 0) == [ATTACK_ROUNDS + 3 * TWO32, 0]
  {
    var t := Zeros(RESULT_ARRAY_SIZE)[65 := ATTACK_ROUNDS][66 := 3];
    var u := Words32(t, RESULT_ARRAY_SIZE);
    assert forall k :: 0 <= k < RESULT_ARRAY_SIZE && k != 130 && k != 132 ==> u[k] == 0 by {
      forall k | 0 <= k < RESULT_ARRAY_SIZE && k != 130 && k != 132 ensures u[k] == 0 {
        assert (k / 2 != 65 && k / 2 != 66) || k % 2 == 1;
      }
    }
    assert u[130] == ATTACK_ROUNDS && u[132] == 3;
    MaxExceptUnique(u, -1, ATTACK_ROUNDS);
    FirstIndexUnique(u, ATTACK_ROUNDS, -1, 130);
    MaxExceptUnique(u, 130, 3);
  }

  // ---------------------------------------------------------------------------
  // The program

  /** The program's global arrays and the state main keeps across offsets. */
  class Program {
    const guideArray: array<u8>
    const probeArray: array<u8>
    const results: array<nat>
    const output: array<u8>
    const hitArray: array<nat>
    /** The address of probeArray, as passed to the eviction routine. */
    const probeAddr: u32
    const engine: EvictionEngine
    var mixed_i: u64
    var dummy: u64
    ghost var calls: seq<Call>

    ghost predicate Valid()
    {
      && guideArray.Length == ARRAY_SIZE_FACTOR
      && probeArray.Length == PROBE_BYTES
      && results.Length == RESULT_ARRAY_SIZE
      && output.Length == 2 && hitArray.Length == 2
      && guideArray != probeArray && output != guideArray && output != probeArray
      && results != hitArray
      && results as object != guideArray && results as object != probeArray && results as object != output
      && hitArray as object != guideArray && hitArray as object != probeArray && hitArray as object != output
    }

    ghost predicate ProbeFilled()
      reads probeArray
    {
      forall k :: 0 <= k < probeArray.Length ==> probeArray[k] == 1
    }

    /**
     * The arrays as the program starts: the globals zero, and dummy and
     * output[0], which main leaves uninitialised, holding dummy0 and output0.
     */
    constructor (probeAddr: u32, engine: EvictionEngine, dummy0: u64, output0: u8)
      ensures Valid()
      ensures this.probeAddr == probeAddr && this.engine == engine
      ensures fresh(guideArray) && fresh(probeArray) && fresh(results) && fresh(output) && fresh(hitArray)
      ensures dummy == dummy0 && output[0] == output0 && calls == []
      ensures results[..] == Zeros(RESULT_ARRAY_SIZE)
    {
      guideArray := new u8[ARRAY_SIZE_FACTOR](_ => 0);
      probeArray := new u8[PROBE_BYTES](_ => 0);
      results := new nat[RESULT_ARRAY_SIZE](_ => 0);
      output := new u8[2](_ => output0);
      hitArray := new nat[2](_ => 0);
      this.probeAddr := probeAddr;
      this.engine := engine;
      mixed_i := 0;
      dummy := dummy0;
      calls := [];
    }

    /** Fills guideArray from the `rand()` values fill(i) and probeArray with ones. */
    method Setup(fill: nat -> nat)
      requires Valid()
      modifies guideArray, probeArray
      ensures guideArray[..] == GuideFill(fill)
      ensures ProbeFilled()
    {
      var i := 0;
      while i < guideArray.Length
        invariant i <= guideArray.Length
        invariant forall k :: 0 <= k < i ==> guideArray[k] == GuideValue(fill(k))
      {
        guideArray[i] := GuideValue(fill(i));
        i := i + 1;
      }
      i := 0;
      while i < probeArray.Length
        invariant i <= probeArray.Length
        invariant forall k :: 0 <= k < i ==> probeArray[k] == 1
        invariant guideArray[..] == GuideFill(fill)
      {
        probeArray[i] := 1;
        i := i + 1;
      }
    }

    /** Zeroes the hit counts. */
    method ClearResults()
      requires Valid()
      modifies results
      ensures results[..] == Zeros(RESULT_ARRAY_SIZE)
    {
      var cIdx := 0;
      while cIdx < RESULT_ARRAY_SIZE
        invariant cIdx <= RESULT_ARRAY_SIZE
        invariant forall k :: 0 <= k < cIdx ==> results[k] == 0
      {
        results[cIdx] := 0;
        cIdx := cIdx + 1;
      }
    }

    /**
     * The training loop of one round: j runs from TRAIN_TIMES - 1 down to 0,
     * and each step calls the victim with the selected index, so the victim
     * sees randIdx TRAIN_TIMES - 1 times and then attackIdx once.
     */
    method Train(attackIdx: u64, randIdx: u64)
      modifies this`calls
      ensures calls == old(calls) + TrainingCalls(attackIdx, randIdx)
    {
      var j: int := TRAIN_TIMES - 1;
      while j >= 0
        invariant -1 <= j < TRAIN_TIMES
        invariant calls == old(calls) + TrainingCalls(attackIdx, randIdx)[..TRAIN_TIMES - 1 - j]
      {
        var passInIdx := PassInIdx(j, attackIdx, randIdx);
        TrainingStep(j, attackIdx, randIdx);
        ghost var k := TRAIN_TIMES - 1 - j;
        ghost var tc := TrainingCalls(attackIdx, randIdx);
        assert tc[k] == Victim(passInIdx);
        assert tc[..k + 1] == tc[..k] + [tc[k]];
        calls := calls + [Victim(passInIdx)];
        j := j - 1;
      }
    }

    /**
     * The timed reads of one round: each candidate's probe line is read in
     * mixer order, and a read faster than the threshold counts a hit unless
     * the candidate is the training value guideArray[randIdx].
     */
    method TimeReads(lat: nat -> nat, randIdx: u64)
      requires Valid() && ProbeFilled() && randIdx < ARRAY_SIZE_FACTOR
      modifies results, this`mixed_i, this`dummy
      ensures results[..] == Swept(old(results[..]), lat, CACHE_HIT_THRESHOLD, guideArray[randIdx])
      ensures dummy == old(dummy) % 2 && mixed_i == Mix(ARRAY_SIZE_FACTOR - 1)
    {
      ghost var before := results[..];
      ghost var e := guideArray[randIdx];
      var i: nat := 0;
      while i < ARRAY_SIZE_FACTOR
        invariant i <= ARRAY_SIZE_FACTOR
        invariant forall v :: 0 <= v < RESULT_ARRAY_SIZE ==>
                    results[v] == before[v] + (if Unmix(v) < i && lat(Unmix(v)) < CACHE_HIT_THRESHOLD && v != e then 1 else 0)
        invariant dummy == if i == 0 then old(dummy) else old(dummy) % 2
        invariant i > 0 ==> mixed_i == Mix(i - 1)
      {
        mixed_i := Mix(i);
        AndOne(dummy);
        dummy := And(dummy, probeArray[mixed_i * ARRAY_STRIDE]);
        var diff := lat(i);
        forall v | 0 <= v < RESULT_ARRAY_SIZE
          ensures Mix(i) == v <==> Unmix(v) == i
        {
          MixIff(i, v);
        }
        if diff < CACHE_HIT_THRESHOLD && mixed_i != guideArray[randIdx] {
          results[mixed_i] := results[mixed_i] + 1;
        }
        i := i + 1;
      }
    }

    /**
     * One attack round: the two flushes, the training index drawn from the
     * `rand()` value x, the training loop and the timed reads.
     */
    method AttackRound(attackIdx: u64, x: nat, lat: nat -> nat)
      requires Valid() && ProbeFilled()
      modifies results, this`mixed_i, this`dummy, this`calls, engine`flushJunk, engine`loads
      ensures results[..] == Swept(old(results[..]), lat, CACHE_HIT_THRESHOLD, guideArray[RandIdx(x)])
      ensures calls == old(calls) + RoundCalls(probeAddr, attackIdx, RandIdx(x))
      ensures dummy == old(dummy) % 2 && mixed_i == Mix(ARRAY_SIZE_FACTOR - 1)
      ensures engine.loads == old(engine.loads) + RoundLoads(probeAddr, engine.dummyMem)
      ensures engine.flushJunk == ProbeJunk(probeAddr, engine.dummyMem, engine.memory)
    {
      engine.FlushCache(GUIDE_ARRAY_SIZE, GUIDE_ARRAY_SIZE_BYTES);
      engine.FlushCache(probeAddr, PROBE_BYTES);
      AppendAssoc(old(engine.loads), EvictionSchedule(GUIDE_ARRAY_SIZE, GUIDE_ARRAY_SIZE_BYTES, engine.dummyMem),
                  EvictionSchedule(probeAddr, PROBE_BYTES, engine.dummyMem));
      calls := calls + [Flush(GUIDE_ARRAY_SIZE, GUIDE_ARRAY_SIZE_BYTES), Flush(probeAddr, PROBE_BYTES)];
      var randIdx := RandIdx(x);
      ghost var c0 := calls;
      Train(attackIdx, randIdx);
      AppendAssoc(old(calls), [Flush(GUIDE_ARRAY_SIZE, GUIDE_ARRAY_SIZE_BYTES), Flush(probeAddr, PROBE_BYTES)], TrainingCalls(attackIdx, randIdx));
      TimeReads(lat, randIdx);
    }

    /**
     * Round atkRound of an offset, stated against the whole offset: the counts
     * and the trace of the earlier rounds are extended by this round's, and
     * dummy, whose low bit is d0's, becomes that bit.
     */
    method NextRound(atkRound: nat, attackIdx: u64, lat: (nat, nat) -> nat, pick: nat -> nat,
                     ghost g: seq<u8>, ghost rounds: nat, ghost c0: seq<Call>, ghost d0: nat)
      requires Valid() && ProbeFilled() && guideArray[..] == g && atkRound < rounds
      requires results[..] == Tally(atkRound, lat, CACHE_HIT_THRESHOLD, Exclusions(g, pick, rounds))
      requires calls == c0 + OffsetCalls(atkRound, probeAddr, attackIdx, pick)
      requires dummy % 2 == d0 % 2
      modifies results, this`mixed_i, this`dummy, this`calls, engine`flushJunk, engine`loads
      ensures results[..] == Tally(atkRound + 1, lat, CACHE_HIT_THRESHOLD, Exclusions(g, pick, rounds))
      ensures calls == c0 + OffsetCalls(atkRound + 1, probeAddr, attackIdx, pick)
      ensures dummy == d0 % 2 && mixed_i == Mix(ARRAY_SIZE_FACTOR - 1)
      ensures engine.loads == old(engine.loads) + RoundLoads(probeAddr, engine.dummyMem)
      ensures engine.flushJunk == ProbeJunk(probeAddr, engine.dummyMem, engine.memory)
    {
      AttackRound(attackIdx, pick(atkRound), RoundLatency(lat, atkRound));
      ExclusionsAt(g, pick, rounds, atkRound);
      TallyNext(atkRound, lat, CACHE_HIT_THRESHOLD, Exclusions(g, pick, rounds));
      AppendAssoc(c0, OffsetCalls(atkRound, probeAddr, attackIdx, pick), RoundCalls(probeAddr, attackIdx, RandIdx(pick(atkRound))));
    }

    /**
     * The attack rounds on one offset, from cleared counts (ATTACK_ROUNDS of
     * them in Run); g is the content of guideArray.
     */
    method AttackRounds(rounds: nat, attackIdx: u64, lat: (nat, nat) -> nat, pick: nat -> nat, ghost g: seq<u8>)
      requires Valid() && ProbeFilled() && guideArray[..] == g
      requires results[..] == Zeros(RESULT_ARRAY_SIZE)
      modifies results, this`mixed_i, this`dummy, this`calls, engine`flushJunk, engine`loads
      ensures results[..] == Tally(rounds, lat, CACHE_HIT_THRESHOLD, Exclusions(g, pick, rounds))
      ensures calls == old(calls) + OffsetCalls(rounds, probeAddr, attackIdx, pick)
      ensures dummy == if rounds == 0 then old(dummy) else old(dummy) % 2
      ensures mixed_i == if rounds == 0 then old(mixed_i) else Mix(ARRAY_SIZE_FACTOR - 1)
      ensures engine.loads == old(engine.loads) + Repeat(RoundLoads(probeAddr, engine.dummyMem), rounds)
      ensures engine.flushJunk == if rounds == 0 then old(engine.flushJunk) else ProbeJunk(probeAddr, engine.dummyMem, engine.memory)
    {
      ghost var d0 := dummy;
      TallyStart(lat, CACHE_HIT_THRESHOLD, Exclusions(g, pick, rounds));
      if rounds > 0 {
        // The first round turns dummy into its low bit; the later rounds keep it.
        NextRound(0, attackIdx, lat, pick, g, rounds, old(calls), d0);
        var atkRound: nat := 1;
        while atkRound < rounds
          invariant 1 <= atkRound <= rounds
          invariant results[..] == Tally(atkRound, lat, CACHE_HIT_THRESHOLD, Exclusions(g, pick, rounds))
          invariant calls == old(calls) + OffsetCalls(atkRound, probeAddr, attackIdx, pick)
          invariant dummy == d0 % 2 && mixed_i == Mix(ARRAY_SIZE_FACTOR - 1)
          invariant engine.loads == old(engine.loads) + Repeat(RoundLoads(probeAddr, engine.dummyMem), atkRound)
          invariant engine.flushJunk == ProbeJunk(probeAddr, engine.dummyMem, engine.memory)
        {
          ModTwoTwice(d0);
          NextRound(atkRound, attackIdx, lat, pick, g, rounds, old(calls), d0);
          AppendAssoc(old(engine.loads), Repeat(RoundLoads(probeAddr, engine.dummyMem), atkRound), RoundLoads(probeAddr, engine.dummyMem));
          atkRound := atkRound + 1;
        }
      }
    }

    /**
     * One offset of the main program: cleared counts, the attack rounds, the
     * junk fold of dummy (whose low bit is d0's) into results[0] and the
     * top-two scan into output and hitArray; g is the content of guideArray.
     */
    method AttackOffset(len: nat, attackIdx: u64, lat: nat -> (nat, nat) -> nat, pick: nat -> nat -> nat,
                        ghost g: seq<u8>, ghost d0: nat)
      requires Valid() && ProbeFilled() && guideArray[..] == g && dummy % 2 == d0 % 2
      modifies results, output, hitArray
      modifies this`mixed_i, this`dummy, this`calls, engine`flushJunk, engine`loads
      ensures var u := Scanned(g, pick, lat, d0 % 2, len);
              output[0] == Reported(u, old(output[0])) && hitArray[0] == Top(u) && hitArray[1] == RunnerUp(u)
      ensures var u := Scanned(g, pick, lat, d0 % 2, len);
              output[1] == if RunnerUp(u) > 0 then RunnerUpIdx(u) % 256
                           else if Top(u) > 0 then old(output[0])
                           else old(output[1])
      ensures results[..] == Scanned(g, pick, lat, d0 % 2, len)
      ensures calls == old(calls) + OffsetCalls(ATTACK_ROUNDS, probeAddr, attackIdx, pick(len))
      ensures dummy == d0 % 2 && mixed_i == Mix(ARRAY_SIZE_FACTOR - 1)
      ensures engine.loads == old(engine.loads) + Repeat(RoundLoads(probeAddr, engine.dummyMem), ATTACK_ROUNDS)
      ensures engine.flushJunk == ProbeJunk(probeAddr, engine.dummyMem, engine.memory)
    {
      ClearResults();
      AttackRounds(ATTACK_ROUNDS, attackIdx, lat(len), pick(len), g);
      results[0] := Xor(results[0], dummy);
      assert results[..RESULT_ARRAY_SIZE] == Scanned(g, pick, lat, d0 % 2, len);
      TopTwoIdx(results, RESULT_ARRAY_SIZE, output, hitArray);
    }

    /**
     * The state main reaches after `len` of its n offsets from a start state
     * with guide content g, junk bit that of d0, output byte out0, call trace
     * c0, load trace l0, mixer index m0 and junk byte j0: the guesses so far
     * (outs) in guessString and the last one in output[0], the remaining
     * bytes of guessString NUL, the calls `done` and the loads of `len`
     * offsets appended, dummy's low bit kept, and mixed_i and the junk byte
     * as the last offset's final sweep and flush leave them.
     */
    ghost predicate MainProgress(len: nat, n: nat, guessString: array<u8>, outs: seq<u8>, done: seq<Call>,
                                 g: seq<u8>, d0: nat, out0: u8, c0: seq<Call>, l0: seq<u32>, m0: u64, j0: u8)
      reads this, guideArray, probeArray, output, engine, guessString
    {
      && Valid() && ProbeFilled() && guideArray[..] == g
      && guessString != guideArray && guessString != probeArray && guessString != output
      && len <= n && guessString.Length == n + 1 && |outs| == len
      && (forall k :: 0 <= k < len ==> guessString[k] == outs[k])
      && (forall k :: len <= k <= n ==> guessString[k] == 0)
      && output[0] == (if len == 0 then out0 else outs[len - 1])
      && calls == c0 + done
      && dummy % 2 == d0 % 2
      && mixed_i == (if len == 0 then m0 else Mix(ARRAY_SIZE_FACTOR - 1))
      && engine.loads == l0 + Repeat(Repeat(RoundLoads(probeAddr, engine.dummyMem), ATTACK_ROUNDS), len)
      && engine.flushJunk == (if len == 0 then j0 else ProbeJunk(probeAddr, engine.dummyMem, engine.memory))
    }

    /** Before the first offset, main's progress holds with nothing appended. */
    lemma ProgressStart(n: nat, guessString: array<u8>, g: seq<u8>, d0: nat, out0: u8, c0: seq<Call>)
      requires Valid() && ProbeFilled() && guideArray[..] == g
      requires guessString != guideArray && guessString != probeArray && guessString != output
      requires guessString.Length == n + 1 && forall k :: 0 <= k <= n ==> guessString[k] == 0
      requires output[0] == out0 && calls == c0 && dummy % 2 == d0 % 2
      ensures MainProgress(0, n, guessString, [], [], g, d0, out0, c0, engine.loads, mixed_i, engine.flushJunk)
    {
    }

    /** After the last of n offsets, main's progress gives the final guesses, calls, loads and junk byte. */
    lemma ProgressEnd(n: nat, guessString: array<u8>, outs: seq<u8>, done: seq<Call>,
                      g: seq<u8>, d0: nat, out0: u8, c0: seq<Call>, l0: seq<u32>, m0: u64, j0: u8)
      requires MainProgress(n, n, guessString, outs, done, g, d0, out0, c0, l0, m0, j0)
      ensures forall k :: 0 <= k < n ==> guessString[k] == outs[k]
      ensures guessString[n] == 0
      ensures calls == c0 + done
      ensures guideArray[..] == g && ProbeFilled()
      ensures mixed_i == if n == 0 then m0 else Mix(ARRAY_SIZE_FACTOR - 1)
      ensures engine.loads == l0 + Repeat(Repeat(RoundLoads(probeAddr, engine.dummyMem), ATTACK_ROUNDS), n)
      ensures engine.flushJunk == if n == 0 then j0 else ProbeJunk(probeAddr, engine.dummyMem, engine.memory)
    {
    }

    /**
     * One pass of the main loop: the attack on offset len, which leaves its
     * guess in output[0], the guess stored into guessString[len], and the
     * attack index advanced by one.
     */
    method GuessOffset(len: nat, n: nat, attackIdx: u64, attackIdx0: u64, guessString: array<u8>,
                       pick: nat -> nat -> nat, lat: nat -> (nat, nat) -> nat,
                       ghost g: seq<u8>, ghost d0: nat, ghost out0: u8, ghost c0: seq<Call>,
                       ghost l0: seq<u32>, ghost m0: u64, ghost j0: u8, ghost outs: seq<u8>, ghost done: seq<Call>)
      returns (next: u64, ghost outs': seq<u8>, ghost done': seq<Call>)
      requires len < n && MainProgress(len, n, guessString, outs, done, g, d0, out0, c0, l0, m0, j0)
      requires outs == Guesses(g, pick, lat, d0 % 2, out0, len) && done == MainCalls(len, probeAddr, attackIdx0, pick)
      requires attackIdx == IndexAfter(attackIdx0, len)
      modifies guessString, results, output, hitArray
      modifies this`mixed_i, this`dummy, this`calls, engine`flushJunk, engine`loads
      ensures MainProgress(len + 1, n, guessString, outs', done', g, d0, out0, c0, l0, m0, j0)
      ensures outs' == Guesses(g, pick, lat, d0 % 2, out0, len + 1) && done' == MainCalls(len + 1, probeAddr, attackIdx0, pick)
      ensures next == IndexAfter(attackIdx0, len + 1)
    {
      ModTwoTwice(d0);
      AppendAssoc(l0, Repeat(Repeat(RoundLoads(probeAddr, engine.dummyMem), ATTACK_ROUNDS), len), Repeat(RoundLoads(probeAddr, engine.dummyMem), ATTACK_ROUNDS));
      AppendAssoc(c0, done, OffsetCalls(ATTACK_ROUNDS, probeAddr, attackIdx, pick(len)));
      AttackOffset(len, attackIdx, lat, pick, g, d0);
      guessString[len] := output[0];
      outs' := outs + [output[0]];
      done' := done + OffsetCalls(ATTACK_ROUNDS, probeAddr, attackIdx, pick(len));
      next := Add64(attackIdx, 1);
    }

    /**
     * The main program: guessString of n + 1 NUL bytes, the set-up, then for
     * each of the n offsets one GuessOffset. The final NUL stays in place.
     */
    method Run(n: nat, attackIdx0: u64, fill: nat -> nat, pick: nat -> nat -> nat, lat: nat -> (nat, nat) -> nat)
      returns (guessString: array<u8>, ghost outs: seq<u8>)
      requires Valid()
      modifies guideArray, probeArray, results, output, hitArray
      modifies this`mixed_i, this`dummy, this`calls, engine`flushJunk, engine`loads
      ensures fresh(guessString) && guessString.Length == n + 1
      ensures outs == Guesses(GuideFill(fill), pick, lat, old(dummy) % 2, old(output[0]), n)
      ensures forall k :: 0 <= k < n ==> guessString[k] == outs[k]
      ensures guessString[n] == 0
      ensures calls == old(calls) + MainCalls(n, probeAddr, attackIdx0, pick)
      ensures guideArray[..] == GuideFill(fill) && ProbeFilled()
      ensures mixed_i == if n == 0 then old(mixed_i) else Mix(ARRAY_SIZE_FACTOR - 1)
      ensures engine.loads == old(engine.loads) + Repeat(Repeat(RoundLoads(probeAddr, engine.dummyMem), ATTACK_ROUNDS), n)
      ensures engine.flushJunk == if n == 0 then old(engine.flushJunk) else ProbeJunk(probeAddr, engine.dummyMem, engine.memory)
    {
      guessString := NulString(n + 1);
      Setup(fill);
      outs := GuessAll(n, attackIdx0, guessString, pick, lat, GuideFill(fill), old(dummy), old(output[0]), old(calls));
    }

    /** The per-offset loop of main, writing each guess into guessString. */
    method GuessAll(n: nat, attackIdx0: u64, guessString: array<u8>, pick: nat -> nat -> nat, lat: nat -> (nat, nat) -> nat,
                    ghost g: seq<u8>, ghost d0: nat, ghost out0: u8, ghost c0: seq<Call>)
      returns (ghost outs: seq<u8>)
      requires Valid() && ProbeFilled() && guideArray[..] == g
      requires guessString != guideArray && guessString != probeArray && guessString != output
      requires guessString.Length == n + 1 && forall k :: 0 <= k <= n ==> guessString[k] == 0
      requires output[0] == out0 && calls == c0 && dummy % 2 == d0 % 2
      modifies guessString, results, output, hitArray
      modifies this`mixed_i, this`dummy, this`calls, engine`flushJunk, engine`loads
      ensures outs == Guesses(g, pick, lat, d0 % 2, out0, n)
      ensures forall k :: 0 <= k < n ==> guessString[k] == outs[k]
      ensures guessString[n] == 0
      ensures calls == c0 + MainCalls(n, probeAddr, attackIdx0, pick)
      ensures guideArray[..] == g && ProbeFilled()
      ensures mixed_i == if n == 0 then old(mixed_i) else Mix(ARRAY_SIZE_FACTOR - 1)
      ensures engine.loads == old(engine.loads) + Repeat(Repeat(RoundLoads(probeAddr, engine.dummyMem), ATTACK_ROUNDS), n)
      ensures engine.flushJunk == if n == 0 then old(engine.flushJunk) else ProbeJunk(probeAddr, engine.dummyMem, engine.memory)
    {
      ghost var l0, m0, j0 := engine.loads, mixed_i, engine.flushJunk;
      ProgressStart(n, guessString, g, d0, out0, c0);
      outs := [];
      ghost var done: seq<Call> := [];
      var attackIdx := attackIdx0;
      var len: nat := 0;
      while len < n
        invariant outs == Guesses(g, pick, lat, d0 % 2, out0, len) && done == MainCalls(len, probeAddr, attackIdx0, pick)
        invariant attackIdx == IndexAfter(attackIdx0, len)
        invariant MainProgress(len, n, guessString, outs, done, g, d0, out0, c0, l0, m0, j0)
      {
        attackIdx, outs, done := GuessOffset(len, n, attackIdx, attackIdx0, guessString, pick, lat, g, d0, out0, c0, l0, m0, j0, outs, done);
        len := len + 1;
      }
      ProgressEnd(n, guessString, outs, done, g, d0, out0, c0, l0, m0, j0);
    }
  }

  /** A fresh character array of the given size, every slot NUL. */
  method NulString(size: nat) returns (s: array<u8>)
    ensures fresh(s) && s.Length == size
    ensures forall k :: 0 <= k < size ==> s[k] == 0
  {
    s := new u8[size];
    var i := 0;
    while i < s.Length
      invariant i <= s.Length
      invariant forall k :: 0 <= k < i ==> s[k] == 0
    {
      s[i] := 0;
      i := i + 1;
    }
  }

}
